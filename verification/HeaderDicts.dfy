/** Insertion-ordered string dictionaries, as the transports build and read them. */
module HeaderDicts {
  import opened Wrappers
  import opened Messages

  function Get(h: Headers, key: string): Option<string> {
    if h == [] then None else if h[0].0 == key then Some(h[0].1) else Get(h[1..], key)
  }

  /** `headers[key] = value`: an existing key keeps its place. */
  function Put(h: Headers, key: string, value: string): Headers {
    if h == [] then [(key, value)]
    else if h[0].0 == key then [(key, value)] + h[1..]
    else [h[0]] + Put(h[1..], key, value)
  }

  predicate DistinctKeys(h: Headers) {
    forall i, j :: 0 <= i < j < |h| ==> h[i].0 != h[j].0
  }

  lemma {:induction false} GetPut(h: Headers, key: string, value: string, k: string)
    ensures Get(Put(h, key, value), k) == if k == key then Some(value) else Get(h, k)
  {
    if h != [] && h[0].0 != key {
      GetPut(h[1..], key, value, k);
      assert Put(h, key, value)[1..] == Put(h[1..], key, value);
    }
  }

  lemma {:induction false} GetFinds(h: Headers, key: string)
    ensures Get(h, key).None? <==> forall i :: 0 <= i < |h| ==> h[i].0 != key
    ensures Get(h, key).Some? ==> exists i :: 0 <= i < |h| && h[i] == (key, Get(h, key).value)
  {
    if h != [] {
      GetFinds(h[1..], key);
      if h[0].0 != key && Get(h, key).Some? {
        var i :| 0 <= i < |h[1..]| && h[1..][i] == (key, Get(h, key).value);
        assert h[i + 1] == (key, Get(h, key).value);
      }
      if h[0].0 != key && Get(h, key).None? {
        forall i | 0 <= i < |h| ensures h[i].0 != key {
          assert i > 0 ==> h[i] == h[1..][i - 1];
        }
      }
    }
  }

  lemma {:induction false} PutKeepsKeysDistinct(h: Headers, key: string, value: string)
    requires DistinctKeys(h)
    ensures DistinctKeys(Put(h, key, value))
    ensures forall i :: 0 <= i < |Put(h, key, value)| ==> Put(h, key, value)[i].0 == key || exists j :: 0 <= j < |h| && h[j].0 == Put(h, key, value)[i].0
  {
    if h != [] && h[0].0 != key {
      PutKeepsKeysDistinct(h[1..], key, value);
      var rest := Put(h[1..], key, value);
      forall i | 0 <= i < |rest| ensures rest[i].0 != h[0].0 {
        if rest[i].0 != key {
          var j :| 0 <= j < |h[1..]| && h[1..][j].0 == rest[i].0;
          assert h[j + 1].0 == rest[i].0;
        }
      }
      forall i | 0 <= i < |Put(h, key, value)|
        ensures Put(h, key, value)[i].0 == key || exists j :: 0 <= j < |h| && h[j].0 == Put(h, key, value)[i].0
      {
        if i > 0 && rest[i - 1].0 != key {
          var j :| 0 <= j < |h[1..]| && h[1..][j].0 == rest[i - 1].0;
          assert h[j + 1].0 == Put(h, key, value)[i].0;
        }
      }
    }
  }

  /** `Put` sets one key, leaves the others alone and keeps one pair per key. */
  lemma PutSets(h: Headers, key: string, value: string)
    ensures forall k :: Get(Put(h, key, value), k) == if k == key then Some(value) else Get(h, k)
    ensures DistinctKeys(h) ==> DistinctKeys(Put(h, key, value))
  {
    forall k ensures Get(Put(h, key, value), k) == if k == key then Some(value) else Get(h, k) {
      GetPut(h, key, value, k);
    }
    if DistinctKeys(h) {
      PutKeepsKeysDistinct(h, key, value);
    }
  }

  lemma {:induction false} GetLast(h: Headers, key: string, value: string, k: string)
    ensures Get(h + [(key, value)], k) == if Get(h, k).Some? then Get(h, k) else if k == key then Some(value) else None
  {
    if h == [] {
      assert (h + [(key, value)])[1..] == [];
    } else {
      assert (h + [(key, value)])[1..] == h[1..] + [(key, value)];
      GetLast(h[1..], key, value, k);
    }
  }
}
