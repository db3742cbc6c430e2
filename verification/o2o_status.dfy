/** The online/offline status and its lookup by integer key. */
module O2OStatus {
  import opened Wrappers

  datatype Status = Offline | Online {
    /** The position in declaration order. */
    function Ordinal(): nat {
      match this
      case Offline => 0
      case Online => 1
    }

    /** getKey: the key is set to the ordinal by the constructor, so it is 0 or 1 and no other status shares it. */
    function Key(): (k: int)
      ensures 0 <= k <= 1
      ensures forall r: Status :: r != this ==> r.Ordinal() != k
    {
      Ordinal()
    }

    /** getValue: the message key of the status. */
    function Value(): string {
      match this
      case Offline => "o2o.status.offline"
      case Online => "o2o.status.online"
    }

    /** matches: the status's key equals `key`. */
    predicate Matches(key: int)
      ensures Matches(key) <==> key == Ordinal()
      ensures Matches(key) ==> key == 0 || key == 1
    {
      Key() == key
    }
  }

  /** mappings: each status under its ordinal, as the static block fills it from values(). */
  const Mappings: map<int, Status> := map[Offline.Ordinal() := Offline, Online.Ordinal() := Online]

  /** resolve: the status stored under `key`, or null. */
  function Resolve(key: int): (r: Option<Status>)
    ensures r.Some? ==> r.value.Key() == key
    ensures r.None? <==> key != 0 && key != 1
  {
    if key in Mappings then Some(Mappings[key]) else None
  }

  /** Each status is found again from its own key. */
  lemma ResolveRoundTrip(s: Status)
    ensures Resolve(s.Key()) == Some(s)
  {
  }

  /** `matches` and `resolve` agree: a key matches a status exactly when it resolves to it. */
  lemma MatchesIffResolves(s: Status, key: int)
    ensures s.Matches(key) <==> Resolve(key) == Some(s)
  {
  }
}
