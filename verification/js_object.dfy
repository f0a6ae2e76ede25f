/**
  A JavaScript object with string keys and string values, as the sequence of its
  properties in insertion order (the order `JSON.stringify` writes them), and the
  opaque JSON values the build copies from the package metadata without looking
  inside.
 */
module JsObject {
  import opened JsString

  /** A JSON value read from a file and copied through unchanged. */
  datatype Json =
    | Null
    | Bool(b: bool)
    | Number(n: int)  // integers only: the build copies numbers without reading them
    | Str(s: string)
    | Array(items: seq<Json>)
    | Object(members: seq<(string, Json)>)

  type Entries = seq<(string, string)>

  predicate DistinctKeys(o: Entries) {
    forall i, j :: 0 <= i < j < |o| ==> o[i].0 != o[j].0
  }

  predicate HasKey(o: Entries, k: string) {
    exists i :: 0 <= i < |o| && o[i].0 == k
  }

  /** `o[k]`: the value of the property named `k`, if any. */
  function Get(o: Entries, k: string): (r: Option<string>)
    ensures r.Some? <==> HasKey(o, k)
    ensures DistinctKeys(o) ==> forall i :: 0 <= i < |o| && o[i].0 == k ==> r == Some(o[i].1)
  {
    if |o| == 0 then None
    else if o[0].0 == k then Some(o[0].1)
    else
      assert HasKey(o, k) ==> HasKey(o[1..], k) by {
        if HasKey(o, k) {
          var i :| 0 <= i < |o| && o[i].0 == k;
          assert o[1..][i - 1].0 == k;
        }
      }
      assert forall i :: 1 <= i < |o| ==> o[i] == o[1..][i - 1];
      Get(o[1..], k)
  }

  /**
    The assignment `o[k] = v`: an existing property keeps its place and takes the new
    value; a new property goes at the end.
   */
  function Put(o: Entries, k: string, v: string): (r: Entries)
    requires DistinctKeys(o)
    ensures DistinctKeys(r)
    ensures HasKey(o, k) ==> |r| == |o| && forall i :: 0 <= i < |o| ==> r[i] == (if o[i].0 == k then (k, v) else o[i])
    ensures !HasKey(o, k) ==> r == o + [(k, v)]
  {
    if |o| == 0 then [(k, v)]
    else if o[0].0 == k then [(k, v)] + o[1..]
    else
      var tail := Put(o[1..], k, v);
      assert HasKey(o, k) <==> HasKey(o[1..], k) by {
        if HasKey(o, k) {
          var i :| 0 <= i < |o| && o[i].0 == k;
          assert o[1..][i - 1].0 == k;
        }
        if HasKey(o[1..], k) {
          var i :| 0 <= i < |o[1..]| && o[1..][i].0 == k;
          assert o[i + 1].0 == k;
        }
      }
      assert o == [o[0]] + o[1..];
      var r := [o[0]] + tail;
      assert forall i :: 1 <= i < |r| ==> r[i] == tail[i - 1];
      assert !HasKey(o[1..], k) ==> forall i :: 0 <= i < |tail| ==> tail[i].0 != o[0].0 by {
        if !HasKey(o[1..], k) {
          forall i | 0 <= i < |tail| ensures tail[i].0 != o[0].0 {
            if i < |o[1..]| { assert o[1..][i] == o[i + 1]; }
          }
        }
      }
      r
  }

  /** Assigning `o[k] = v` makes `o[k]` read `v` and leaves every other property as it was. */
  lemma PutGet(o: Entries, k: string, v: string)
    requires DistinctKeys(o)
    ensures Get(Put(o, k, v), k) == Some(v)
    ensures forall k' :: k' != k ==> Get(Put(o, k, v), k') == Get(o, k')
  {
    var r := Put(o, k, v);
    if HasKey(o, k) {
      var i :| 0 <= i < |o| && o[i].0 == k;
      assert r[i] == (k, v);
    } else {
      assert r[|o|] == (k, v);
    }
    forall k' | k' != k ensures Get(r, k') == Get(o, k') {
      if HasKey(o, k') {
        var i :| 0 <= i < |o| && o[i].0 == k';
        assert r[i] == o[i];
      } else {
        forall i | 0 <= i < |r| ensures r[i].0 != k' {
          if i < |o| { assert r[i].0 == o[i].0; }
        }
      }
    }
  }

  /** The object's contents as a map, forgetting the order. */
  function ToMap(o: Entries): (m: map<string, string>)
    ensures forall k :: k in m <==> HasKey(o, k)
    ensures forall k :: k in m ==> Get(o, k) == Some(m[k])
  {
    map k | k in (set i | 0 <= i < |o| :: o[i].0) :: Get(o, k).value
  }
}
