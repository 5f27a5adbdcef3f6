/**
  Redis replies and the key/value reading shared by every decoder.

  A Redis hash comes back as a flat register `[k0, v0, k1, v1, ...]` of
  `Data` replies.  The decoders walk it from the left, keep the element at
  each even index as the pending key and store the element at the following
  odd index under it in a hash map.  `PairMap` is the map that walk ends
  with, `KeysAt` the set of keys it saw.
 */
module RedisValues {

  /** The reply shapes of the Redis client; `Data` holds already-decoded text. */
  datatype Value =
    | Nil
    | Int(number: int)
    | Data(text: string)
    | Bulk(items: seq<Value>)
    | Status(status: string)
    | Okay

  /** The panic of the decoders that walk a register and meet a non-`Data` element. */
  const UnexpectedValue: string := "Unexpected value"

  /** Every element of the register is a `Data` reply. */
  predicate AllData(register: seq<Value>) {
    forall i :: 0 <= i < |register| ==> register[i].Data?
  }

  /** The texts of a register made only of `Data` replies. */
  function Texts(register: seq<Value>): (texts: seq<string>)
    requires AllData(register)
    ensures |texts| == |register|
    ensures forall i :: 0 <= i < |register| ==> texts[i] == register[i].text
  {
    if register == [] then [] else Texts(register[..|register| - 1]) + [register[|register| - 1].text]
  }

  /** Reading one more `Data` element of a register. */
  lemma TextsStep(register: seq<Value>, n: nat)
    requires n < |register| && AllData(register[..n]) && register[n].Data?
    ensures AllData(register[..n + 1])
    ensures Texts(register[..n + 1]) == Texts(register[..n]) + [register[n].text]
  {
    assert register[..n + 1][..n] == register[..n];
  }

  /** The map left by the left-to-right walk: an even index is the pending
      key, the next odd index is inserted under it (a later insert of the
      same key replaces the earlier one), a trailing key is never inserted. */
  function PairMap(ss: seq<string>): map<string, string>
    decreases |ss|
  {
    if |ss| < 2 then map[]
    else if |ss| % 2 == 1 then PairMap(ss[..|ss| - 1])
    else PairMap(ss[..|ss| - 2])[ss[|ss| - 2] := ss[|ss| - 1]]
  }

  /** The keys the walk saw: the elements at even indices, trailing key included. */
  function KeysAt(ss: seq<string>): set<string> {
    set j | 0 <= j < |ss| && j % 2 == 0 :: ss[j]
  }

  /** The key left without a value when the register has odd length. */
  function TrailingKey(ss: seq<string>): set<string> {
    if |ss| % 2 == 1 then {ss[|ss| - 1]} else {}
  }

  /** Position `j` holds a key that is followed by its value. */
  predicate PairedAt(ss: seq<string>, j: int) {
    0 <= j && j + 1 < |ss| && j % 2 == 0
  }

  /** One more step of the walk. */
  lemma {:induction false} PairMapSnoc(ss: seq<string>, x: string)
    ensures PairMap(ss + [x]) ==
            if |ss| % 2 == 0 then PairMap(ss) else PairMap(ss)[ss[|ss| - 1] := x]
  {
    var t := ss + [x];
    assert t[..|ss|] == ss;
    if |ss| % 2 == 0 {
      if |ss| > 0 {
        assert PairMap(t) == PairMap(t[..|ss|]);
      }
    } else {
      assert t[..|ss| - 1] == ss[..|ss| - 1];
      assert PairMap(t) == PairMap(ss[..|ss| - 1])[ss[|ss| - 1] := x];
      if |ss| > 1 {
        assert PairMap(ss) == PairMap(ss[..|ss| - 1]);
      }
    }
  }

  lemma KeysAtSnoc(ss: seq<string>, x: string)
    ensures KeysAt(ss + [x]) == if |ss| % 2 == 0 then KeysAt(ss) + {x} else KeysAt(ss)
  {
    var t := ss + [x];
    forall k | k in KeysAt(t)
      ensures k in (if |ss| % 2 == 0 then KeysAt(ss) + {x} else KeysAt(ss))
    {
      var j :| 0 <= j < |t| && j % 2 == 0 && t[j] == k;
      if j < |ss| { assert ss[j] == k; }
    }
    forall k | k in KeysAt(ss) ensures k in KeysAt(t) {
      var j :| 0 <= j < |ss| && j % 2 == 0 && ss[j] == k;
      assert t[j] == k;
    }
    if |ss| % 2 == 0 {
      assert t[|ss|] == x;
    }
  }

  /** A key is in the map exactly when it occurs at an even index followed by a value. */
  lemma {:induction false} PairMapKeys(ss: seq<string>, k: string)
    ensures k in PairMap(ss) <==> exists j :: PairedAt(ss, j) && ss[j] == k
    decreases |ss|
  {
    if |ss| < 2 {
    } else if |ss| % 2 == 1 {
      var s' := ss[..|ss| - 1];
      PairMapKeys(s', k);
      if exists j :: PairedAt(ss, j) && ss[j] == k {
        var j :| PairedAt(ss, j) && ss[j] == k;
        assert PairedAt(s', j) && s'[j] == k;
      }
    } else {
      var s' := ss[..|ss| - 2];
      PairMapKeys(s', k);
      if k != ss[|ss| - 2] && exists j :: PairedAt(ss, j) && ss[j] == k {
        var j :| PairedAt(ss, j) && ss[j] == k;
        assert PairedAt(s', j) && s'[j] == k;
      }
      if k == ss[|ss| - 2] {
        assert PairedAt(ss, |ss| - 2);
      }
      if exists j :: PairedAt(s', j) && s'[j] == k {
        var j :| PairedAt(s', j) && s'[j] == k;
        assert PairedAt(ss, j) && ss[j] == k;
      }
    }
  }

  /** If a key repeats, the value after its last occurrence is the one stored. */
  lemma {:induction false} PairMapLastWins(ss: seq<string>, j: int, k: string)
    requires LastPairedAt(ss, j, k)
    ensures k in PairMap(ss) && PairMap(ss)[k] == ss[j + 1]
    decreases |ss|
  {
    if |ss| % 2 == 1 {
      var s' := ss[..|ss| - 1];
      forall j' | j < j' && PairedAt(s', j') ensures s'[j'] != k {
        assert PairedAt(ss, j');
      }
      PairMapLastWins(s', j, k);
    } else if j < |ss| - 2 {
      var s' := ss[..|ss| - 2];
      forall j' | j < j' && PairedAt(s', j') ensures s'[j'] != k {
        assert PairedAt(ss, j');
      }
      PairMapLastWins(s', j, k);
      assert PairedAt(ss, |ss| - 2);
    }
  }

  /** `j` is the last even position holding key `k` with a value after it. */
  ghost predicate LastPairedAt(ss: seq<string>, j: int, k: string) {
    PairedAt(ss, j) && ss[j] == k && forall j' :: j < j' && PairedAt(ss, j') ==> ss[j'] != k
  }

  /** The value stored under a key is the one after its last occurrence. */
  lemma {:induction false} PairMapLast(ss: seq<string>, k: string)
    requires k in PairMap(ss)
    ensures exists j :: LastPairedAt(ss, j, k) && PairMap(ss)[k] == ss[j + 1]
    decreases |ss|
  {
    if |ss| % 2 == 1 {
      var s' := ss[..|ss| - 1];
      PairMapLast(s', k);
      var j :| LastPairedAt(s', j, k) && PairMap(s')[k] == s'[j + 1];
      forall j' | j < j' && PairedAt(ss, j') ensures ss[j'] != k {
        assert PairedAt(s', j');
      }
      assert LastPairedAt(ss, j, k);
    } else if ss[|ss| - 2] == k {
      assert LastPairedAt(ss, |ss| - 2, k);
    } else {
      var s' := ss[..|ss| - 2];
      PairMapLast(s', k);
      var j :| LastPairedAt(s', j, k) && PairMap(s')[k] == s'[j + 1];
      forall j' | j < j' && PairedAt(ss, j') ensures ss[j'] != k {
        if j' < |ss| - 2 { assert PairedAt(s', j'); }
      }
      assert LastPairedAt(ss, j, k);
    }
  }

  /** A trailing key that never occurs with a value does not enter the map. */
  lemma TrailingKeyDropped(ss: seq<string>)
    requires |ss| % 2 == 1
    requires forall j :: PairedAt(ss, j) ==> ss[j] != ss[|ss| - 1]
    ensures ss[|ss| - 1] !in PairMap(ss)
  {
    PairMapKeys(ss, ss[|ss| - 1]);
  }

  /** The keys seen are the map's keys plus, for an odd length, the trailing key. */
  lemma KeysAtIsPairMapKeys(ss: seq<string>)
    ensures KeysAt(ss) == PairMap(ss).Keys + TrailingKey(ss)
  {
    var extra := TrailingKey(ss);
    forall k | k in KeysAt(ss) ensures k in PairMap(ss).Keys + extra {
      var j :| 0 <= j < |ss| && j % 2 == 0 && ss[j] == k;
      PairMapKeys(ss, k);
      if j + 1 < |ss| { assert PairedAt(ss, j); }
    }
    forall k | k in PairMap(ss).Keys + extra ensures k in KeysAt(ss) {
      PairMapKeys(ss, k);
      if k in PairMap(ss) {
        var j :| PairedAt(ss, j) && ss[j] == k;
      }
    }
  }

  // ----- Writing field pairs as a hash -----

  /** The register a list of field pairs is written as: `[k0, v0, k1, v1, ...]`. */
  function Flatten(pairs: seq<(string, string)>): (flat: seq<string>)
    ensures |flat| == 2 * |pairs|
  {
    if pairs == [] then []
    else Flatten(pairs[..|pairs| - 1]) + [pairs[|pairs| - 1].0, pairs[|pairs| - 1].1]
  }

  /** The hash the pairs make when written in order (a later pair wins). */
  function ToMap(pairs: seq<(string, string)>): map<string, string> {
    if pairs == [] then map[]
    else ToMap(pairs[..|pairs| - 1])[pairs[|pairs| - 1].0 := pairs[|pairs| - 1].1]
  }

  /** The field names of a list of pairs, in order. */
  function Names(pairs: seq<(string, string)>): (names: seq<string>)
    ensures |names| == |pairs| && forall i :: 0 <= i < |pairs| ==> names[i] == pairs[i].0
  {
    if pairs == [] then [] else Names(pairs[..|pairs| - 1]) + [pairs[|pairs| - 1].0]
  }

  /** Reading back a written list of pairs gives the hash they make. */
  lemma {:induction false} PairMapFlatten(pairs: seq<(string, string)>)
    ensures PairMap(Flatten(pairs)) == ToMap(pairs)
    decreases |pairs|
  {
    if pairs != [] {
      var init := pairs[..|pairs| - 1];
      var last := pairs[|pairs| - 1];
      var f := Flatten(init);
      var g := f + [last.0];
      PairMapFlatten(init);
      PairMapSnoc(f, last.0);
      assert PairMap(g) == ToMap(init);
      PairMapSnoc(g, last.1);
      assert g[|g| - 1] == last.0;
      assert Flatten(pairs) == g + [last.1];
    }
  }
}
