/** The order in which `Object.keys` lists the own keys of a plain object: keys
    that are array indices first, in ascending numeric order, then every other
    key in insertion order (section 10.1.11.1 of ECMA-262, OrdinaryOwnPropertyKeys). */
module KeyOrder {

  predicate IsDigit(c: char)
  {
    '0' <= c <= '9'
  }

  /** The value of a string of decimal digits. */
  function DecimalValue(s: string): (v: nat)
    requires forall i :: 0 <= i < |s| ==> IsDigit(s[i])
    ensures |s| == 1 ==> v == s[0] as int - '0' as int
  {
    if |s| == 0 then 0
    else
      var d := s[|s| - 1];
      assert IsDigit(d);
      DecimalValue(s[..|s| - 1]) * 10 + (d as int - '0' as int)
  }

  /** The largest array index, 2^32 - 2. */
  const MaxArrayIndex: nat := 0xFFFF_FFFE

  /** A canonical decimal numeral (no leading zero except "0" itself) whose
      value is an array index. */
  predicate IsArrayIndex(k: string)
  {
    |k| >= 1 && (forall i :: 0 <= i < |k| ==> IsDigit(k[i])) &&
    (k == "0" || k[0] != '0') &&
    DecimalValue(k) <= MaxArrayIndex
  }

  /** The numeric value of an array-index key. */
  function IndexValue(k: string): nat
    requires IsArrayIndex(k)
  {
    DecimalValue(k)
  }

  /** Two neighbouring keys in `Object.keys` order: an index key is preceded
      only by an index key of no greater value. */
  predicate InOrder(a: string, b: string)
  {
    IsArrayIndex(b) ==> IsArrayIndex(a) && IndexValue(a) <= IndexValue(b)
  }

  /** Index keys come before all other keys, in ascending numeric order. */
  predicate KeysOrdered(keys: seq<string>)
  {
    forall i :: 0 <= i < |keys| - 1 ==> InOrder(keys[i], keys[i + 1])
  }

  /** The neighbour-wise order extends to every pair of positions. */
  lemma {:induction false} KeysOrderedPairwise(keys: seq<string>, i: nat, j: nat)
    requires KeysOrdered(keys)
    requires i < j < |keys|
    ensures InOrder(keys[i], keys[j])
    decreases j - i
  {
    if i + 1 < j {
      KeysOrderedPairwise(keys, i + 1, j);
    }
  }

  /** The keys that are not array indices, in list order. */
  function PlainKeys(keys: seq<string>): seq<string>
  {
    if |keys| == 0 then []
    else if IsArrayIndex(keys[0]) then PlainKeys(keys[1..])
    else [keys[0]] + PlainKeys(keys[1..])
  }

  /** The position a new key takes in the key list: after every index key of
      smaller value when it is an index itself, at the end otherwise. */
  function KeySlot(keys: seq<string>, k: string): (i: nat)
    ensures i <= |keys|
    ensures !IsArrayIndex(k) ==> i == |keys|
    decreases |keys|
  {
    if !IsArrayIndex(k) then |keys|
    else if |keys| > 0 && IsArrayIndex(keys[0]) && IndexValue(keys[0]) < IndexValue(k) then
      1 + KeySlot(keys[1..], k)
    else 0
  }

  /** An index key's slot follows exactly the leading index keys of smaller value. */
  lemma {:induction false} KeySlotBetween(keys: seq<string>, k: string)
    requires IsArrayIndex(k)
    ensures var i := KeySlot(keys, k);
      (forall j :: 0 <= j < i ==> IsArrayIndex(keys[j]) && IndexValue(keys[j]) < IndexValue(k)) &&
      (i < |keys| ==> !(IsArrayIndex(keys[i]) && IndexValue(keys[i]) < IndexValue(k)))
    decreases |keys|
  {
    if |keys| > 0 && IsArrayIndex(keys[0]) && IndexValue(keys[0]) < IndexValue(k) {
      KeySlotBetween(keys[1..], k);
    }
  }

  /** Adding a new own key to an object: a plain key goes last, an index key
      among the index keys by value. */
  function InsertKey(keys: seq<string>, k: string): (r: seq<string>)
    requires k !in keys
    ensures |r| == |keys| + 1
  {
    var i := KeySlot(keys, k);
    keys[..i] + [k] + keys[i..]
  }

  /** The new list holds the old keys and the new one, each exactly once more. */
  lemma InsertKeyContents(keys: seq<string>, k: string)
    requires k !in keys
    ensures multiset(InsertKey(keys, k)) == multiset(keys) + multiset{k}
    ensures forall x :: x in InsertKey(keys, k) <==> x in keys || x == k
  {
    var i := KeySlot(keys, k);
    assert keys == keys[..i] + keys[i..];
    assert forall x :: x in InsertKey(keys, k) <==> x in multiset(InsertKey(keys, k));
  }

  /** Adding a key keeps the list in `Object.keys` order. */
  lemma InsertKeyOrdered(keys: seq<string>, k: string)
    requires k !in keys
    requires KeysOrdered(keys)
    ensures KeysOrdered(InsertKey(keys, k))
  {
    var i := KeySlot(keys, k);
    var r := InsertKey(keys, k);
    if IsArrayIndex(k) {
      KeySlotBetween(keys, k);
    }
    forall j | 0 <= j < |r| - 1
      ensures InOrder(r[j], r[j + 1])
    {
      if j + 1 < i {
        assert r[j] == keys[j] && r[j + 1] == keys[j + 1];
      } else if j + 1 == i {
        assert r[j] == keys[j] && r[j + 1] == k;
      } else if j == i {
        assert r[j] == k && r[j + 1] == keys[i];
      } else {
        assert r[j] == keys[j - 1] && r[j + 1] == keys[j];
      }
    }
  }

  /** The plain keys of a concatenation are those of its parts. */
  lemma {:induction false} PlainKeysConcat(a: seq<string>, b: seq<string>)
    ensures PlainKeys(a + b) == PlainKeys(a) + PlainKeys(b)
    decreases |a|
  {
    if |a| == 0 {
      assert a + b == b;
    } else {
      assert (a + b)[0] == a[0];
      assert (a + b)[1..] == a[1..] + b;
      PlainKeysConcat(a[1..], b);
    }
  }

  /** Keys that are not array indices stay in insertion order, and a new plain
      key is listed after all of them. */
  lemma PlainKeysInsertionOrder(keys: seq<string>, k: string)
    requires k !in keys
    ensures PlainKeys(InsertKey(keys, k)) == PlainKeys(keys) + (if IsArrayIndex(k) then [] else [k])
  {
    var i := KeySlot(keys, k);
    var a, b := keys[..i], keys[i..];
    assert InsertKey(keys, k) == (a + [k]) + b;
    PlainKeysConcat(a + [k], b);
    PlainKeysConcat(a, [k]);
    if IsArrayIndex(k) {
      assert PlainKeys([k]) == [];
      assert keys == a + b;
      PlainKeysConcat(a, b);
    } else {
      assert a == keys && b == [];
      assert PlainKeys([k]) == [k];
    }
  }

  /** `Object.keys` order on a small example: "10" and "2" are indices listed
      by value before "home", which keeps its place among the plain keys. */
  lemma KeyOrderExample()
    ensures InsertKey([], "home") == ["home"]
    ensures InsertKey(["home"], "10") == ["10", "home"]
    ensures InsertKey(["10", "home"], "2") == ["2", "10", "home"]
  {
    assert DecimalValue("10") == 10 by {
      assert "10"[..1] == "1";
    }
    assert IsArrayIndex("10");
    assert IsArrayIndex("2");
    assert !IsArrayIndex("home") by {
      assert !IsDigit("home"[0]);
    }
    assert KeySlot(["home"], "10") == 0;
    assert KeySlot(["10", "home"], "2") == 0;
  }
}
