/**
 * The order in which JavaScript lists the own string keys of a plain object
 * (`Object.keys`, ordinary [[OwnPropertyKeys]] in section 10.1.11.1 of
 * ECMA-262): keys that are array indices come first, in ascending numeric
 * order, and every other key follows in the order it was added.
 */
module JsKeys {

  predicate IsDigit(c: char) {
    '0' <= c <= '9'
  }

  predicate AllDigits(k: string) {
    forall i :: 0 <= i < |k| ==> IsDigit(k[i])
  }

  function DigitValue(c: char): nat {
    if IsDigit(c) then (c as int) - ('0' as int) else 0
  }

  /** The number a digit string spells (other characters count as 0). */
  function Value(k: string): nat
    decreases |k|
  {
    if k == [] then 0 else Value(k[..|k| - 1]) * 10 + DigitValue(k[|k| - 1])
  }

  /** The canonical spelling of an integer below 2^32 - 1: "0", or digits without a leading zero. */
  predicate IsArrayIndex(k: string) {
    && |k| >= 1 && AllDigits(k)
    && (k[0] == '0' ==> |k| == 1)
    && Value(k) < 0xFFFF_FFFF
  }

  predicate Ascending(s: seq<string>) {
    forall i, j :: 0 <= i < j < |s| ==> Value(s[i]) <= Value(s[j])
  }

  /** `k` placed into the ascending `s` before the first key of a larger value. */
  function InsertByValue(k: string, s: seq<string>): (r: seq<string>)
    ensures multiset(r) == multiset(s) + multiset{k}
    decreases |s|
  {
    if s == [] || Value(k) <= Value(s[0]) then [k] + s
    else
      assert s == [s[0]] + s[1..];
      [s[0]] + InsertByValue(k, s[1..])
  }

  /** A key no larger than every key of an ascending list can go in front of it. */
  lemma ConsAscending(x: string, t: seq<string>)
    requires Ascending(t)
    requires forall i :: 0 <= i < |t| ==> Value(x) <= Value(t[i])
    ensures Ascending([x] + t)
  {
    var r := [x] + t;
    assert r[0] == x && r[1..] == t;
    forall i, j | 0 <= i < j < |r| ensures Value(r[i]) <= Value(r[j]) {
      if i == 0 {
        assert Value(x) <= Value(t[j - 1]);
      } else {
        assert Value(t[i - 1]) <= Value(t[j - 1]);
      }
    }
  }

  /** Inserting keeps every lower bound that holds for the key and the list. */
  lemma {:induction false} InsertBound(k: string, s: seq<string>, v: nat)
    requires v <= Value(k)
    requires forall i :: 0 <= i < |s| ==> v <= Value(s[i])
    ensures forall i :: 0 <= i < |InsertByValue(k, s)| ==> v <= Value(InsertByValue(k, s)[i])
    decreases |s|
  {
    if s != [] && Value(k) > Value(s[0]) {
      InsertBound(k, s[1..], v);
      var r := InsertByValue(k, s);
      assert r == [s[0]] + InsertByValue(k, s[1..]);
      forall i | 0 <= i < |r| ensures v <= Value(r[i]) {
        if i > 0 {
          assert r[i] == InsertByValue(k, s[1..])[i - 1];
        }
      }
    } else {
      var r := [k] + s;
      forall i | 0 <= i < |r| ensures v <= Value(r[i]) {
        if i > 0 {
          assert r[i] == s[i - 1];
        }
      }
    }
  }

  lemma {:induction false} InsertAscending(k: string, s: seq<string>)
    requires Ascending(s)
    ensures Ascending(InsertByValue(k, s))
    decreases |s|
  {
    if s != [] && Value(k) > Value(s[0]) {
      InsertAscending(k, s[1..]);
      InsertBound(k, s[1..], Value(s[0]));
      ConsAscending(s[0], InsertByValue(k, s[1..]));
    } else if s != [] {
      ConsAscending(k, s);
    }
  }

  /** The keys of `s` by ascending numeric value. */
  function SortByValue(s: seq<string>): (r: seq<string>)
    ensures multiset(r) == multiset(s)
    ensures Ascending(r)
    decreases |s|
  {
    if s == [] then []
    else
      assert s == [s[0]] + s[1..];
      InsertAscending(s[0], SortByValue(s[1..]));
      InsertByValue(s[0], SortByValue(s[1..]))
  }

  /** The array-index keys of `keys`, in their own order. */
  function IndexKeys(keys: seq<string>): (r: seq<string>)
    ensures forall i :: 0 <= i < |r| ==> IsArrayIndex(r[i])
    decreases |keys|
  {
    if keys == [] then []
    else if IsArrayIndex(keys[0]) then [keys[0]] + IndexKeys(keys[1..])
    else IndexKeys(keys[1..])
  }

  /** The other keys of `keys`, in their own order. */
  function OtherKeys(keys: seq<string>): (r: seq<string>)
    ensures forall i :: 0 <= i < |r| ==> !IsArrayIndex(r[i])
    decreases |keys|
  {
    if keys == [] then []
    else if IsArrayIndex(keys[0]) then OtherKeys(keys[1..])
    else [keys[0]] + OtherKeys(keys[1..])
  }

  /** Splitting keys into array indices and the rest loses and adds nothing. */
  lemma {:induction false} SplitKeys(keys: seq<string>)
    ensures multiset(IndexKeys(keys)) + multiset(OtherKeys(keys)) == multiset(keys)
    decreases |keys|
  {
    if keys != [] {
      SplitKeys(keys[1..]);
      assert keys == [keys[0]] + keys[1..];
    }
  }

  /** Keys without any array index keep their order: the other keys are all of them. */
  lemma {:induction false} OtherKeysOnly(keys: seq<string>)
    requires forall i :: 0 <= i < |keys| ==> !IsArrayIndex(keys[i])
    ensures IndexKeys(keys) == [] && OtherKeys(keys) == keys
    decreases |keys|
  {
    if keys != [] {
      OtherKeysOnly(keys[1..]);
      assert keys == [keys[0]] + keys[1..];
    }
  }

  /**
   * `Object.keys` of an object whose keys were added in the order `order`:
   * the same keys, the array indices first and ascending, then the others
   * as added.
   */
  function ObjectKeys(order: seq<string>): (r: seq<string>)
    ensures multiset(r) == multiset(order)
    ensures var n := |IndexKeys(order)|;
      && n <= |r|
      && (forall i :: 0 <= i < |r| ==> (IsArrayIndex(r[i]) <==> i < n))
      && Ascending(r[..n])
      && r[n..] == OtherKeys(order)
  {
    var idx := SortByValue(IndexKeys(order));
    var r := idx + OtherKeys(order);
    SplitKeys(order);
    assert |idx| == |IndexKeys(order)| by {
      assert |multiset(idx)| == |multiset(IndexKeys(order))|;
    }
    forall i | 0 <= i < |idx| ensures IsArrayIndex(idx[i]) {
      assert idx[i] in multiset(IndexKeys(order));
    }
    assert r[..|idx|] == idx && r[|idx|..] == OtherKeys(order);
    r
  }

  /** Without array-index keys, `Object.keys` is the insertion order. */
  lemma ObjectKeysInsertionOrder(order: seq<string>)
    requires forall i :: 0 <= i < |order| ==> !IsArrayIndex(order[i])
    ensures ObjectKeys(order) == order
  {
    OtherKeysOnly(order);
  }

  /** Actors `2` then `1` are listed as `1`, `2`. */
  lemma IndicesComeSorted()
    ensures ObjectKeys(["2", "1"]) == ["1", "2"]
  {
    assert IsArrayIndex("2") && IsArrayIndex("1");
    assert IndexKeys(["2", "1"]) == ["2", "1"] by {
      assert ["2", "1"][1..] == ["1"];
    }
    assert OtherKeys(["2", "1"]) == [] by {
      assert ["2", "1"][1..] == ["1"];
    }
    assert SortByValue(["1"]) == ["1"];
    assert ["2", "1"][1..] == ["1"];
    assert SortByValue(["2", "1"]) == InsertByValue("2", ["1"]);
    assert InsertByValue("2", ["1"]) == ["1"] + InsertByValue("2", []);
  }
}
