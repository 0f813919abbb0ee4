/** The errors the broker's core throws, and the result types that carry them. */
module Outcomes {
  import opened Text

  datatype Option<T> = None | Some(value: T)

  /** The exceptions of bin/cmd.js. Both allocators throw the same
      "No unallocated ports remaining" error, so one constructor covers both. */
  datatype Error =
    | InvalidIP(ip: seq<int>)
    | NoUnallocatedPorts
    | ClientIdTooShort

  datatype Result<T> = Ok(value: T) | Err(error: Error)

  /** The message of each error. An invalid address is shown as its parsed
      octets joined by dots; this rendering is the model's own: the source
      shows the address string as given, which differs for text such as
      "010.0.0.300". The message never reaches a client: for an
      allocation error openTunnel calls its callback with an undeclared
      variable instead. */
  function Message(e: Error): string
  {
    match e
    case InvalidIP(ip) => "Invalid IP: " + Join(seq(|ip|, i requires 0 <= i < |ip| => IntText(ip[i])), '.')
    case NoUnallocatedPorts => "No unallocated ports remaining"
    case ClientIdTooShort => "Client ID missing or shorter than 8 characters (UTF-8)"
  }
}
