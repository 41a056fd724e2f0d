/**
 * JavaScript objects whose keys the code walks (`Object.keys`, `Object.values`,
 * `Object.entries`), kept as their entries in insertion order, and the
 * object assignment `object[key] = value` on them.
 */
module Objects {
  function Keys<V>(entries: seq<(string, V)>): (r: seq<string>)
    ensures |r| == |entries| && forall i :: 0 <= i < |entries| ==> r[i] == entries[i].0
  {
    seq(|entries|, i requires 0 <= i < |entries| => entries[i].0)
  }

  /** The object has an entry under `key`. */
  predicate HasKey<V(==)>(entries: seq<(string, V)>, key: string) {
    exists e :: e in entries && e.0 == key
  }

  /** Each key is listed once, as in an object. */
  predicate DistinctKeys<V>(entries: seq<(string, V)>) {
    forall i, j :: 0 <= i < j < |entries| ==> entries[i].0 != entries[j].0
  }

  /**
   * What `object[key] = value` promises of the object `r` it leaves: it holds
   * the entry, keeps every entry under another key, gains no other key and
   * still lists each key once.
   */
  ghost predicate Assigned<V>(entries: seq<(string, V)>, key: string, value: V, r: seq<(string, V)>) {
    && (key, value) in r
    && (forall e :: e in r ==> e in entries || e == (key, value))
    && (forall e :: e in entries && e.0 != key ==> e in r)
    && (forall k :: HasKey(r, k) <==> HasKey(entries, k) || k == key)
    && (DistinctKeys(entries) ==> DistinctKeys(r))
  }

  /**
   * `object[key] = value` on an object kept as its entries: an existing key
   * keeps its place and takes the new value, a new key goes last.
   */
  function Put<V>(entries: seq<(string, V)>, key: string, value: V): (r: seq<(string, V)>)
    ensures (key, value) in r
  {
    if entries == [] then [(key, value)]
    else if entries[0].0 == key then [(key, value)] + entries[1..]
    else [entries[0]] + Put(entries[1..], key, value)
  }

  /** `Put` is an assignment: see `Assigned`. */
  lemma {:induction false} PutAssigned<V>(entries: seq<(string, V)>, key: string, value: V)
    ensures Assigned(entries, key, value, Put(entries, key, value))
  {
    if entries == [] {
    } else if entries[0].0 == key {
      ReplaceFirstAssigned(entries, value);
    } else {
      PutAssigned(entries[1..], key, value);
      KeepFirstAssigned(entries, key, value, Put(entries[1..], key, value));
    }
  }

  /** Replacing the value of the first entry is an assignment to its key. */
  lemma ReplaceFirstAssigned<V>(entries: seq<(string, V)>, value: V)
    requires entries != []
    ensures Assigned(entries, entries[0].0, value, [(entries[0].0, value)] + entries[1..])
  {
    var key := entries[0].0;
    var r := [(key, value)] + entries[1..];
    forall e | e in entries && e.0 != key ensures e in r {
      var i := IndexOf(entries, e);
      assert entries[i] == entries[1..][i - 1];
    }
    forall k | HasKey(entries, k) ensures HasKey(r, k) {
      var e :| e in entries && e.0 == k;
      if e.0 == key { assert (key, value) in r; } else { assert e in r; }
    }
  }

  /** Keeping the first entry and assigning in the rest is an assignment to the whole. */
  lemma KeepFirstAssigned<V>(entries: seq<(string, V)>, key: string, value: V, rest: seq<(string, V)>)
    requires entries != [] && entries[0].0 != key
    requires Assigned(entries[1..], key, value, rest)
    ensures Assigned(entries, key, value, [entries[0]] + rest)
  {
    var r := [entries[0]] + rest;
    assert forall e :: e in entries ==> e == entries[0] || e in entries[1..] by {
      forall e | e in entries ensures e == entries[0] || e in entries[1..] {
        var i := IndexOf(entries, e);
        if i != 0 { assert entries[i] == entries[1..][i - 1]; }
      }
    }
    forall k | HasKey(entries, k) ensures HasKey(r, k) {
      var e :| e in entries && e.0 == k;
      if e != entries[0] {
        assert HasKey(entries[1..], k);
        var f :| f in rest && f.0 == k;
        assert f in r;
      }
    }
    forall k | HasKey(r, k) ensures HasKey(entries, k) || k == key {
      var e :| e in r && e.0 == k;
      if e != entries[0] {
        assert HasKey(rest, k);
        if k != key {
          var f :| f in entries[1..] && f.0 == k;
          assert f in entries;
        }
      }
    }
    if DistinctKeys(entries) {
      assert DistinctKeys(entries[1..]);
      assert !HasKey(rest, entries[0].0);
      forall i, j | 0 <= i < j < |r| ensures r[i].0 != r[j].0 {
        if i == 0 {
          assert r[j] == rest[j - 1];
          assert r[j] in rest;
        } else {
          assert r[i] == rest[i - 1] && r[j] == rest[j - 1];
        }
      }
    }
  }

  /** The first index at which `e` is listed. */
  function IndexOf<T(==)>(s: seq<T>, e: T): (i: nat)
    requires e in s
    ensures i < |s| && s[i] == e && e !in s[..i]
  {
    if s[0] == e then 0
    else
      assert s[1..][..IndexOf(s[1..], e)] == s[1..IndexOf(s[1..], e) + 1];
      1 + IndexOf(s[1..], e)
  }

  /** A key not yet present is appended. */
  lemma {:induction false} PutFresh<V>(entries: seq<(string, V)>, key: string, value: V)
    requires key !in Keys(entries)
    ensures Put(entries, key, value) == entries + [(key, value)]
  {
    if entries != [] {
      var rest := entries[1..];
      assert entries[0].0 == Keys(entries)[0];
      assert key !in Keys(rest) by {
        forall i | 0 <= i < |rest| ensures Keys(rest)[i] != key {
          assert Keys(rest)[i] == Keys(entries)[i + 1];
        }
      }
      PutFresh(rest, key, value);
      calc {
        Put(entries, key, value);
        [entries[0]] + Put(rest, key, value);
        [entries[0]] + (rest + [(key, value)]);
        { assert entries == [entries[0]] + rest; }
        entries + [(key, value)];
      }
    }
  }

  /** The entries written one after the other, in order. */
  function PutAll<V>(entries: seq<(string, V)>, written: seq<(string, V)>): seq<(string, V)> {
    if written == [] then entries
    else
      var last := written[|written| - 1];
      Put(PutAll(entries, written[..|written| - 1]), last.0, last.1)
  }

  /**
   * After a series of assignments the object holds only entries it had or
   * that were written, has exactly the keys of both, and still lists each key
   * once.
   */
  lemma {:induction false} PutAllAssigned<V>(entries: seq<(string, V)>, written: seq<(string, V)>)
    ensures forall e :: e in PutAll(entries, written) ==> e in entries || e in written
    ensures forall k :: HasKey(PutAll(entries, written), k) <==> HasKey(entries, k) || HasKey(written, k)
    ensures DistinctKeys(entries) ==> DistinctKeys(PutAll(entries, written))
  {
    if written != [] {
      var init := written[..|written| - 1];
      var last := written[|written| - 1];
      PutAllAssigned(entries, init);
      PutAssigned(PutAll(entries, init), last.0, last.1);
      assert written == init + [last];
      assert forall e :: e in init ==> e in written;
      assert forall k :: HasKey(written, k) <==> HasKey(init, k) || k == last.0;
    }
  }

  /** Writing one more entry of a list is one more `Put`. */
  lemma PutAllPrefix<V>(entries: seq<(string, V)>, written: seq<(string, V)>, k: nat)
    requires k < |written|
    ensures PutAll(entries, written[..k + 1]) == Put(PutAll(entries, written[..k]), written[k].0, written[k].1)
  {
    assert written[..k + 1][..k] == written[..k];
    assert written[..k + 1][k] == written[k];
  }

  /** Writing entries with distinct keys into an empty object lists them in writing order. */
  lemma {:induction false} PutAllDistinct<V>(written: seq<(string, V)>)
    requires DistinctKeys(written)
    ensures PutAll([], written) == written
  {
    if written != [] {
      var init := written[..|written| - 1];
      var last := written[|written| - 1];
      assert DistinctKeys(init);
      PutAllDistinct(init);
      assert last.0 !in Keys(init) by {
        forall i | 0 <= i < |init| ensures Keys(init)[i] != last.0 {
          assert init[i] == written[i];
        }
      }
      PutFresh(init, last.0, last.1);
      assert init + [last] == written;
    }
  }
}
