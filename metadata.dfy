/** `Logger.Metadata` (a `[String: Any]` dictionary) and what FileLogHandler
    does with it: `merging(_:uniquingKeysWith:)` with the new value winning,
    the subscript setter, and `prettify`. A dictionary is modelled as an
    association list in its iteration order; a value is the text its
    interpolation prints. */
module Metadata {
  import opened Wrappers
  import opened Text

  type Metadata = seq<(string, string)>

  function KeysOf(m: Metadata): set<string>
    decreases |m|
  {
    if m == [] then {} else {m[0].0} + KeysOf(m[1..])
  }

  /** A dictionary holds each key once. */
  predicate DistinctKeys(m: Metadata)
    decreases |m|
  {
    m == [] || (m[0].0 !in KeysOf(m[1..]) && DistinctKeys(m[1..]))
  }

  /** The dictionary an association list denotes. */
  function ToMap(m: Metadata): (d: map<string, string>)
    ensures d.Keys == KeysOf(m)
    decreases |m|
  {
    if m == [] then map[] else ToMap(m[1..])[m[0].0 := m[0].1]
  }

  /** The subscript getter `metadata[key]`. */
  function Lookup(m: Metadata, key: string): (r: Option<string>)
    ensures r.Some? <==> key in ToMap(m)
    ensures r.Some? ==> r.value == ToMap(m)[key]
    decreases |m|
  {
    if m == [] then None else if m[0].0 == key then Some(m[0].1) else Lookup(m[1..], key)
  }

  lemma {:induction false} ToMapAppend(x: Metadata, y: Metadata)
    ensures ToMap(x + y) == ToMap(y) + ToMap(x)
    decreases |x|
  {
    if x != [] {
      assert (x + y)[0] == x[0] && (x + y)[1..] == x[1..] + y;
      ToMapAppend(x[1..], y);
      UnionUpdate(ToMap(y), ToMap(x[1..]), x[0].0, x[0].1);
    } else {
      assert x + y == y;
    }
  }

  lemma UnionUpdate(a: map<string, string>, b: map<string, string>, k: string, v: string)
    ensures (a + b)[k := v] == a + b[k := v]
  {
  }

  lemma {:induction false} KeysOfAppend(x: Metadata, y: Metadata)
    ensures KeysOf(x + y) == KeysOf(x) + KeysOf(y)
    decreases |x|
  {
    if x != [] {
      assert (x + y)[1..] == x[1..] + y;
      KeysOfAppend(x[1..], y);
    } else {
      assert x + y == y;
    }
  }

  lemma {:induction false} DistinctAppend(x: Metadata, y: Metadata)
    requires DistinctKeys(x) && DistinctKeys(y) && KeysOf(x) !! KeysOf(y)
    ensures DistinctKeys(x + y)
    decreases |x|
  {
    if x != [] {
      assert (x + y)[1..] == x[1..] + y;
      DistinctAppend(x[1..], y);
      KeysOfAppend(x[1..], y);
    } else {
      assert x + y == y;
    }
  }

  // ---------------------------------------------------------------------
  // The merge of two dictionaries, the second winning on a shared key.

  /** The stored entries, each taking the update's value when it has the key. */
  function Overwrite(base: Metadata, update: Metadata): (r: Metadata)
    ensures KeysOf(r) == KeysOf(base)
    ensures DistinctKeys(base) ==> DistinctKeys(r)
    decreases |base|
  {
    if base == [] then []
    else [(base[0].0, Lookup(update, base[0].0).GetOr(base[0].1))] + Overwrite(base[1..], update)
  }

  /** The update's entries whose key the stored dictionary lacks. */
  function NewEntries(update: Metadata, base: Metadata): (r: Metadata)
    ensures KeysOf(r) == KeysOf(update) - KeysOf(base)
    ensures DistinctKeys(update) ==> DistinctKeys(r)
    decreases |update|
  {
    if update == [] then []
    else if update[0].0 in KeysOf(base) then NewEntries(update[1..], base)
    else
      var rest := NewEntries(update[1..], base);
      assert ([update[0]] + rest)[1..] == rest;
      [update[0]] + rest
  }

  lemma {:induction false} OverwriteToMap(base: Metadata, update: Metadata)
    ensures forall k :: k in ToMap(base) ==>
      ToMap(Overwrite(base, update))[k] == if k in ToMap(update) then ToMap(update)[k] else ToMap(base)[k]
    decreases |base|
  {
    if base != [] {
      OverwriteToMap(base[1..], update);
    }
  }

  lemma {:induction false} NewEntriesToMap(update: Metadata, base: Metadata)
    ensures forall k :: k in ToMap(NewEntries(update, base)) ==> ToMap(NewEntries(update, base))[k] == ToMap(update)[k]
    decreases |update|
  {
    if update != [] {
      NewEntriesToMap(update[1..], base);
      if update[0].0 !in KeysOf(base) {
        var rest := NewEntries(update[1..], base);
        assert ([update[0]] + rest)[1..] == rest;
      }
    }
  }

  /** The merge `log` performs on the stored dictionary and the call's: every
      key of either, the call's value winning where both have the key. */
  function Merge(base: Metadata, update: Metadata): (r: Metadata)
    requires DistinctKeys(base) && DistinctKeys(update)
    ensures DistinctKeys(r)
    ensures ToMap(r) == ToMap(base) + ToMap(update)
  {
    var kept := Overwrite(base, update);
    var added := NewEntries(update, base);
    DistinctAppend(kept, added);
    MergeToMap(base, update);
    kept + added
  }

  lemma MergeToMap(base: Metadata, update: Metadata)
    ensures ToMap(Overwrite(base, update) + NewEntries(update, base)) == ToMap(base) + ToMap(update)
  {
    var kept := Overwrite(base, update);
    var added := NewEntries(update, base);
    ToMapAppend(kept, added);
    OverwriteToMap(base, update);
    NewEntriesToMap(update, base);
    var lhs := ToMap(added) + ToMap(kept);
    var rhs := ToMap(base) + ToMap(update);
    assert lhs.Keys == rhs.Keys;
    forall k | k in lhs.Keys ensures lhs[k] == rhs[k] {
      if k in ToMap(added) {
        assert lhs[k] == ToMap(update)[k];
      } else {
        assert k in ToMap(kept);
      }
    }
  }

  /** Merging an empty update leaves the dictionary as it was, order included. */
  lemma {:induction false} MergeEmpty(base: Metadata)
    requires DistinctKeys(base)
    ensures Merge(base, []) == base
    decreases |base|
  {
    if base != [] {
      MergeEmptyOverwrite(base);
    }
  }

  lemma {:induction false} MergeEmptyOverwrite(base: Metadata)
    ensures Overwrite(base, []) == base
    decreases |base|
  {
    if base != [] {
      MergeEmptyOverwrite(base[1..]);
      assert [base[0]] + base[1..] == base;
    }
  }

  // ---------------------------------------------------------------------
  // The subscript setter `metadata[key] = value` (nil removes the key).

  function RemoveKey(m: Metadata, key: string): (r: Metadata)
    ensures ToMap(r) == ToMap(m) - {key}
    ensures DistinctKeys(m) ==> DistinctKeys(r)
    ensures KeysOf(r) == KeysOf(m) - {key}
    decreases |m|
  {
    if m == [] then []
    else if m[0].0 == key then RemoveKey(m[1..], key)
    else [m[0]] + RemoveKey(m[1..], key)
  }

  function Replace(m: Metadata, key: string, value: string): (r: Metadata)
    ensures KeysOf(r) == KeysOf(m)
    ensures DistinctKeys(m) ==> DistinctKeys(r)
    decreases |m|
  {
    if m == [] then []
    else
      var head := (m[0].0, if m[0].0 == key then value else m[0].1);
      var rest := Replace(m[1..], key, value);
      assert ([head] + rest)[0] == head && ([head] + rest)[1..] == rest;
      [head] + rest
  }

  /** Replacing gives the key its new value when present and changes nothing otherwise. */
  lemma {:induction false} ReplaceToMap(m: Metadata, key: string, value: string)
    ensures key in KeysOf(m) ==> ToMap(Replace(m, key, value)) == ToMap(m)[key := value]
    ensures key !in KeysOf(m) ==> ToMap(Replace(m, key, value)) == ToMap(m)
    decreases |m|
  {
    if m != [] {
      var tail := m[1..];
      var (k0, v0) := m[0];
      var head := (k0, if k0 == key then value else v0);
      var rest := Replace(tail, key, value);
      ReplaceToMap(tail, key, value);
      assert Replace(m, key, value) == [head] + rest;
      assert ([head] + rest)[0] == head && ([head] + rest)[1..] == rest;
      assert ToMap(Replace(m, key, value)) == ToMap(rest)[head.0 := head.1];
      assert ToMap(m) == ToMap(tail)[k0 := v0];
      assert KeysOf(m) == {k0} + KeysOf(tail);
      var t := ToMap(tail);
      if k0 == key {
        if key in KeysOf(tail) {
          UpdateTwice(t, key, value, value);
        }
        UpdateTwice(t, key, v0, value);
      } else if key in KeysOf(tail) {
        UpdateCommute(t, key, value, k0, v0);
      }
    }
  }

  lemma UpdateTwice(d: map<string, string>, k: string, first: string, second: string)
    ensures d[k := first][k := second] == d[k := second]
  {
  }

  lemma UpdateCommute(d: map<string, string>, a: string, va: string, b: string, vb: string)
    requires a != b
    ensures d[a := va][b := vb] == d[b := vb][a := va]
  {
  }

  /** `metadata[key] = value`: afterwards the dictionary maps `key` to the
      new value, or lacks it when the value is nil; other keys keep theirs. */
  function Updated(m: Metadata, key: string, value: Option<string>): (r: Metadata)
    requires DistinctKeys(m)
    ensures DistinctKeys(r)
    ensures ToMap(r) == if value.Some? then ToMap(m)[key := value.value] else ToMap(m) - {key}
  {
    match value
    case None => RemoveKey(m, key)
    case Some(v) =>
      if key in KeysOf(m) then
        ReplaceToMap(m, key, v);
        Replace(m, key, v)
      else
        DistinctAppend(m, [(key, v)]);
        ToMapAppend(m, [(key, v)]);
        m + [(key, v)]
  }

  // ---------------------------------------------------------------------
  // prettify

  /** One `key=value` item per entry, in iteration order. */
  function Items(m: Metadata): (items: seq<string>)
    ensures |items| == |m|
    ensures forall i :: 0 <= i < |m| ==> items[i] == m[i].0 + "=" + m[i].1
  {
    seq(|m|, i requires 0 <= i < |m| => m[i].0 + "=" + m[i].1)
  }

  /** `prettify(_:)`: nil for an empty dictionary, otherwise the items
      joined by single spaces, in which every entry shows as `key=value`. */
  function Prettify(m: Metadata): (text: Option<string>)
    ensures text.None? <==> |m| == 0
    ensures text.Some? ==> forall i :: 0 <= i < |m| ==> Contains(text.value, m[i].0 + "=" + m[i].1)
  {
    if |m| == 0 then None
    else
      JoinShowsItems(m);
      Some(Join(Items(m), " "))
  }

  lemma JoinShowsItems(m: Metadata)
    requires |m| > 0
    ensures forall i :: 0 <= i < |m| ==> Contains(Join(Items(m), " "), m[i].0 + "=" + m[i].1)
  {
    forall i | 0 <= i < |m| ensures Contains(Join(Items(m), " "), m[i].0 + "=" + m[i].1) {
      JoinContainsPart(Items(m), " ", i);
    }
  }

  /** The entry a key of the dictionary comes from: its first occurrence. */
  lemma {:induction false} EntryOf(m: Metadata, k: string) returns (i: nat)
    requires k in ToMap(m)
    ensures i < |m| && m[i] == (k, ToMap(m)[k])
    decreases |m|
  {
    if m[0].0 == k {
      i := 0;
    } else {
      var j := EntryOf(m[1..], k);
      i := j + 1;
    }
  }

  /** Every key of a non-empty dictionary shows in the prettified text with
      the value the dictionary maps it to. */
  lemma PrettifyShowsMap(m: Metadata)
    requires |m| > 0
    ensures forall k :: k in ToMap(m) ==> Contains(Prettify(m).value, k + "=" + ToMap(m)[k])
  {
    forall k | k in ToMap(m) ensures Contains(Prettify(m).value, k + "=" + ToMap(m)[k]) {
      var i := EntryOf(m, k);
      assert m[i].0 + "=" + m[i].1 == k + "=" + ToMap(m)[k];
    }
  }

  /** A part of a join occurs in the joined text. */
  lemma {:induction false} JoinContainsPart(parts: seq<string>, sep: string, i: int)
    requires 0 <= i < |parts|
    ensures Contains(Join(parts, sep), parts[i])
    decreases |parts|
  {
    if |parts| == 1 {
      ContainsMiddle("", parts[0], "");
      assert "" + parts[0] + "" == parts[0];
    } else {
      var tail := Join(parts[1..], sep);
      assert Join(parts, sep) == parts[0] + sep + tail;
      if i == 0 {
        ContainsMiddle("", parts[0], sep + tail);
        assert "" + parts[0] + (sep + tail) == parts[0] + sep + tail;
      } else {
        JoinContainsPart(parts[1..], sep, i - 1);
        ContainsExtend(parts[0] + sep, tail, parts[i]);
      }
    }
  }

  /** Text in front does not hide an occurrence. */
  lemma ContainsExtend(a: string, b: string, sub: string)
    requires Contains(b, sub)
    ensures Contains(a + b, sub)
  {
    ContainsIff(b, sub);
    var i :| OccursAt(b, sub, i);
    assert (a + b)[|a| + i..|a| + i + |sub|] == b[i..i + |sub|];
    assert OccursAt(a + b, sub, |a| + i);
    ContainsIff(a + b, sub);
  }

  /** With no space inside keys and values, cutting the prettified text at
      spaces recovers exactly one `key=value` item per entry. */
  lemma PrettifySplitsIntoItems(m: Metadata)
    requires |m| > 0
    requires forall i :: 0 <= i < |m| ==> ' ' !in m[i].0 && ' ' !in m[i].1
    ensures Split(Prettify(m).value, " ") == Items(m)
  {
    var items := Items(m);
    forall i | 0 <= i < |items| ensures ' ' !in items[i] {
      assert items[i] == m[i].0 + "=" + m[i].1;
    }
    SplitJoinChar(items, ' ');
  }
}
