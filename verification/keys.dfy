/** The order in which `Object.keys` lists the own keys of a plain object
    whose keys were created in a given order (ECMA-262, section 10.1.11.1,
    OrdinaryOwnPropertyKeys): first every key that is an array index, in
    ascending numeric order, then every other string key in the order it
    was created. */
module Keys {
  import opened Numerals

  /** An array index: the canonical decimal text (no sign, no leading zero
      except "0" itself) of an integer from 0 to 2^32 - 2. */
  predicate IsArrayIndex(k: string)
  {
    && k != [] && AllDigits(k)
    && (k[0] == '0' ==> |k| == 1)
    && DigitsValue(k) < 0xFFFF_FFFF
  }

  /** The numeric value of an array-index key (0 for any other key). */
  function IndexValue(k: string): nat
  {
    if IsArrayIndex(k) then DigitsValue(k) else 0
  }

  predicate Ascending(s: seq<string>)
  {
    forall i, j :: 0 <= i < j < |s| ==> IndexValue(s[i]) <= IndexValue(s[j])
  }

  /** The array-index keys, in creation order. */
  function IndexKeys(order: seq<string>): (r: seq<string>)
    ensures forall i :: 0 <= i < |r| ==> IsArrayIndex(r[i])
  {
    if order == [] then []
    else (if IsArrayIndex(order[0]) then [order[0]] else []) + IndexKeys(order[1..])
  }

  /** The other keys, in creation order. */
  function NameKeys(order: seq<string>): (r: seq<string>)
    ensures forall i :: 0 <= i < |r| ==> !IsArrayIndex(r[i])
  {
    if order == [] then []
    else (if IsArrayIndex(order[0]) then [] else [order[0]]) + NameKeys(order[1..])
  }

  lemma {:induction false} KeysSplit(order: seq<string>)
    ensures multiset(IndexKeys(order)) + multiset(NameKeys(order)) == multiset(order)
  {
    if order != [] {
      KeysSplit(order[1..]);
      assert order == [order[0]] + order[1..];
    }
  }

  /** Inserting one array-index key into an ascending list of them. */
  function InsertIndex(k: string, s: seq<string>): seq<string>
  {
    if s == [] then [k]
    else if IndexValue(k) <= IndexValue(s[0]) then [k] + s
    else [s[0]] + InsertIndex(k, s[1..])
  }

  lemma {:induction false} InsertIndexFacts(k: string, s: seq<string>)
    requires Ascending(s)
    ensures Ascending(InsertIndex(k, s))
    ensures multiset(InsertIndex(k, s)) == multiset(s) + multiset{k}
  {
    InsertIndexPermutes(k, s);
    InsertIndexAscends(k, s);
  }

  lemma {:induction false} InsertIndexPermutes(k: string, s: seq<string>)
    ensures multiset(InsertIndex(k, s)) == multiset(s) + multiset{k}
  {
    if s != [] && IndexValue(k) > IndexValue(s[0]) {
      assert s == [s[0]] + s[1..];
      InsertIndexPermutes(k, s[1..]);
    }
  }

  lemma {:induction false} InsertIndexAscends(k: string, s: seq<string>)
    requires Ascending(s)
    ensures Ascending(InsertIndex(k, s))
  {
    if s == [] {
    } else if IndexValue(k) <= IndexValue(s[0]) {
      ConsAscending(k, s);
    } else {
      var t := s[1..];
      InsertIndexAscends(k, t);
      InsertIndexPermutes(k, t);
      var rest := InsertIndex(k, t);
      forall j | 0 <= j < |rest| ensures IndexValue(s[0]) <= IndexValue(rest[j]) {
        var x := rest[j];
        assert x in multiset(rest);
        if x != k {
          HeadBound(s, x);
        }
      }
      ConsAscending(s[0], rest);
    }
  }

  /** The head of an ascending list is at most every later key. */
  lemma HeadBound(s: seq<string>, x: string)
    requires Ascending(s) && s != [] && x in s[1..]
    ensures IndexValue(s[0]) <= IndexValue(x)
  {
    var q :| 0 <= q < |s[1..]| && s[1..][q] == x;
    assert s[q + 1] == x;
  }

  lemma ConsAscending(x: string, t: seq<string>)
    requires Ascending(t)
    requires forall j :: 0 <= j < |t| ==> IndexValue(x) <= IndexValue(t[j])
    ensures Ascending([x] + t)
  {
    var r := [x] + t;
    forall i, j | 0 <= i < j < |r| ensures IndexValue(r[i]) <= IndexValue(r[j]) {
      assert r[j] == t[j - 1];
      if i > 0 {
        assert r[i] == t[i - 1];
      }
    }
  }

  /** Insertion sort of array-index keys by numeric value. */
  function SortIndices(s: seq<string>): seq<string>
  {
    if s == [] then [] else InsertIndex(s[0], SortIndices(s[1..]))
  }

  lemma {:induction false} SortIndicesFacts(s: seq<string>)
    ensures Ascending(SortIndices(s)) && multiset(SortIndices(s)) == multiset(s)
  {
    if s != [] {
      SortIndicesFacts(s[1..]);
      InsertIndexFacts(s[0], SortIndices(s[1..]));
      assert s == [s[0]] + s[1..];
    }
  }

  /** `Object.keys` of an object whose keys were created in `order`: the
      array-index keys in ascending numeric order, then the other keys in
      creation order; the same keys, each as often as in `order`. */
  function ObjectKeys(order: seq<string>): (keys: seq<string>)
    ensures multiset(keys) == multiset(order) && |keys| == |order|
    ensures var p := |IndexKeys(order)|;
      && p <= |keys|
      && (forall i :: 0 <= i < p ==> IsArrayIndex(keys[i]))
      && Ascending(keys[..p])
      && keys[p..] == NameKeys(order)
  {
    KeysSplit(order);
    SortIndicesFacts(IndexKeys(order));
    var front := SortIndices(IndexKeys(order));
    assert |front| == |IndexKeys(order)| by {
      assert |multiset(front)| == |front|;
      assert |multiset(IndexKeys(order))| == |IndexKeys(order)|;
    }
    assert forall i :: 0 <= i < |front| ==> IsArrayIndex(front[i]) by {
      forall i | 0 <= i < |front| ensures IsArrayIndex(front[i]) {
        assert front[i] in multiset(IndexKeys(order));
      }
    }
    var keys := front + NameKeys(order);
    assert keys[..|front|] == front;
    assert |multiset(keys)| == |keys| && |multiset(order)| == |order|;
    keys
  }

  /** Every listed key is one of the created keys. */
  lemma KeysFromOrder(order: seq<string>)
    ensures |ObjectKeys(order)| == |order|
    ensures forall i :: 0 <= i < |order| ==> ObjectKeys(order)[i] in order
  {
    var keys := ObjectKeys(order);
    forall i | 0 <= i < |order| ensures keys[i] in order {
      assert keys[i] in multiset(keys);
    }
  }

  /** With no array-index key among them, the keys come in creation order. */
  lemma {:induction false} NamesKeepCreationOrder(order: seq<string>)
    requires forall i :: 0 <= i < |order| ==> !IsArrayIndex(order[i])
    ensures ObjectKeys(order) == order
  {
    NoIndexKeys(order);
  }

  lemma {:induction false} NoIndexKeys(order: seq<string>)
    requires forall i :: 0 <= i < |order| ==> !IsArrayIndex(order[i])
    ensures IndexKeys(order) == [] && NameKeys(order) == order
  {
    if order != [] {
      NoIndexKeys(order[1..]);
    }
  }

  /** Keys created as "10" and then "9" are listed as "9", "10". */
  lemma NumericKeysAscend()
    ensures ObjectKeys(["10", "9"]) == ["9", "10"]
  {
    assert "10"[..1] == "1" && "1"[..0] == [];
    assert DigitsValue("1") == 1;
    assert DigitsValue("10") == 10;
    assert DigitsValue("9") == 9;
    assert IsArrayIndex("10") && IsArrayIndex("9");
    assert ["10", "9"][1..] == ["9"];
    assert IndexKeys(["10", "9"]) == ["10", "9"];
    assert NameKeys(["10", "9"]) == [];
    assert SortIndices(["9"]) == InsertIndex("9", []) == ["9"];
    assert InsertIndex("10", ["9"]) == ["9"] + InsertIndex("10", []);
    assert SortIndices(["10", "9"]) == ["9", "10"];
  }
}
