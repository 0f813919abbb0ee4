/** The registry lookup of openTunnel as written. `tunnels` is an object
    literal, so `tunnels[client.id]` also answers for the names every object
    inherits from Object.prototype. An inherited member is a function: it is
    truthy, and it has neither a `process` nor an `id` property. */
module ObjectKeys {
  import opened Outcomes
  import opened Handshake

  /** The names Object.prototype provides, so that `{}[name]` is truthy. */
  const InheritedKeys: set<string> := {
    "constructor", "__defineGetter__", "__defineSetter__", "hasOwnProperty",
    "__lookupGetter__", "__lookupSetter__", "isPrototypeOf", "propertyIsEnumerable",
    "toString", "valueOf", "__proto__", "toLocaleString"}

  /** `if(tunnels[client.id])` as written, over the registry's own keys. */
  predicate LookupHitAsWritten(keys: set<string>, id: string)
  {
    id in keys || id in InheritedKeys
  }

  /** The keys left by `closeTunnel(tunnels[id])` as written: an own entry is
      deleted under its id; for an inherited member `tunnel.id` is undefined,
      so `delete tunnels[undefined]` removes the key "undefined". */
  function CloseAsWritten(keys: set<string>, id: string): set<string>
  {
    if id in keys then keys - {id} else keys - {"undefined"}
  }

  /** The keys after k rounds of openTunnel's close-and-retry, as written. */
  function RetriesAsWritten(keys: set<string>, id: string, k: nat): set<string>
  {
    if k == 0 then keys else CloseAsWritten(RetriesAsWritten(keys, id, k - 1), id)
  }

  /** For an inherited name the lookup hits in every round, so openTunnel
      never reaches allocation; from the first round on, the only key ever
      removed is "undefined". */
  lemma {:induction false} InheritedIdRetriesForever(keys: set<string>, id: string, k: nat)
    requires id in InheritedKeys && id !in keys
    ensures id !in RetriesAsWritten(keys, id, k)
    ensures LookupHitAsWritten(RetriesAsWritten(keys, id, k), id)
    ensures k >= 1 ==> RetriesAsWritten(keys, id, k) == keys - {"undefined"}
  {
    if k > 0 {
      InheritedIdRetriesForever(keys, id, k - 1);
    }
  }

  /** The eight-character hello "toString" passes the length check, and the
      open it triggers on a registry with no such entry retries forever while
      deleting the tunnel of a client whose id is "undefined". */
  lemma ToStringNeverOpens(keys: set<string>)
    requires "toString" !in keys
    ensures ParseClientHello("toString") == Ok("toString")
    ensures forall k: nat :: LookupHitAsWritten(RetriesAsWritten(keys, "toString", k), "toString")
    ensures "undefined" !in RetriesAsWritten(keys, "toString", 1)
  {
    forall k: nat ensures LookupHitAsWritten(RetriesAsWritten(keys, "toString", k), "toString") {
      InheritedIdRetriesForever(keys, "toString", k);
    }
    InheritedIdRetriesForever(keys, "toString", 1);
  }
}
