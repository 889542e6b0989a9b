/** Insert-if-absent updates of a header dictionary. */
module HeaderMap {
  import opened Http

  /** `if (!Headers.ContainsKey(name)) Headers.TryAdd(name, value)`. */
  function TryAdd(headers: Headers, name: string, value: string): (r: Headers)
    ensures name in r
    ensures r.Keys == headers.Keys + {name}
  {
    if name in headers then headers else headers[name := value]
  }

  /** A run of `TryAdd`s, first pair first. */
  function AddAll(headers: Headers, additions: seq<(string, string)>): (r: Headers)
  {
    if additions == [] then headers
    else
      var last := additions[|additions| - 1];
      TryAdd(AddAll(headers, additions[..|additions| - 1]), last.0, last.1)
  }

  function Names(additions: seq<(string, string)>): set<string>
  {
    set i | 0 <= i < |additions| :: additions[i].0
  }

  lemma NamesSnoc(additions: seq<(string, string)>)
    requires additions != []
    ensures Names(additions) == Names(additions[..|additions| - 1]) + {additions[|additions| - 1].0}
  {
    var n := |additions| - 1;
    var init := additions[..n];
    forall x | x in Names(additions) ensures x in Names(init) + {additions[n].0} {
      var i :| 0 <= i < |additions| && additions[i].0 == x;
      if i < n {
        assert init[i] == additions[i];
      }
    }
    forall x | x in Names(init) ensures x in Names(additions) {
      var i :| 0 <= i < |init| && init[i].0 == x;
      assert additions[i] == init[i];
    }
  }

  /** The dictionary gains exactly the added names. */
  lemma {:induction false} AddAllKeys(headers: Headers, additions: seq<(string, string)>)
    ensures AddAll(headers, additions).Keys == headers.Keys + Names(additions)
  {
    if additions != [] {
      var init := additions[..|additions| - 1];
      AddAllKeys(headers, init);
      NamesSnoc(additions);
    }
  }

  /** A header already present is never overwritten. */
  lemma {:induction false} AddAllKeeps(headers: Headers, additions: seq<(string, string)>, name: string)
    requires name in headers
    ensures name in AddAll(headers, additions) && AddAll(headers, additions)[name] == headers[name]
  {
    if additions != [] {
      AddAllKeeps(headers, additions[..|additions| - 1], name);
    }
  }

  /** An absent header gets the value of its first addition. */
  lemma {:induction false} AddAllFirstWins(headers: Headers, additions: seq<(string, string)>, i: int)
    requires 0 <= i < |additions| && additions[i].0 !in headers
    requires forall j :: 0 <= j < i ==> additions[j].0 != additions[i].0
    ensures additions[i].0 in AddAll(headers, additions)
    ensures AddAll(headers, additions)[additions[i].0] == additions[i].1
  {
    var n := |additions| - 1;
    var init := additions[..n];
    var name := additions[i].0;
    if i == n {
      AddAllKeys(headers, init);
      assert name !in Names(init);
    } else {
      assert init[i] == additions[i];
      AddAllFirstWins(headers, init, i);
    }
  }

  /** When every name is already present, the run changes nothing. */
  lemma {:induction false} AddAllPresent(headers: Headers, additions: seq<(string, string)>)
    requires Names(additions) <= headers.Keys
    ensures AddAll(headers, additions) == headers
  {
    if additions != [] {
      var init := additions[..|additions| - 1];
      NamesSnoc(additions);
      AddAllPresent(headers, init);
    }
  }

  /** Running the same additions twice is the same as running them once. */
  lemma AddAllIdempotent(headers: Headers, additions: seq<(string, string)>)
    ensures AddAll(AddAll(headers, additions), additions) == AddAll(headers, additions)
  {
    AddAllKeys(headers, additions);
    AddAllPresent(AddAll(headers, additions), additions);
  }
}
