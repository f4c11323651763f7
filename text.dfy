/** String utilities the logger relies on, written as Foundation behaves:
    `joined(separator:)`, `components(separatedBy:)`, `contains(_:)`,
    decimal interpolation of integers and `NSString.lastPathComponent`. */
module Text {

  /** `parts.joined(separator: sep)`. */
  function Join(parts: seq<string>, sep: string): string
    decreases |parts|
  {
    if |parts| == 0 then ""
    else if |parts| == 1 then parts[0]
    else parts[0] + sep + Join(parts[1..], sep)
  }

  predicate StartsWith(s: string, prefix: string) {
    |prefix| <= |s| && s[..|prefix|] == prefix
  }

  /** `s.components(separatedBy: sep)`: scan left to right, cut at every
      leftmost non-overlapping occurrence of `sep`. */
  function Split(s: string, sep: string): (pieces: seq<string>)
    requires |sep| > 0
    ensures |pieces| > 0
    decreases |s|
  {
    if |s| < |sep| then [s]
    else if s[..|sep|] == sep then [""] + Split(s[|sep|..], sep)
    else
      var rest := Split(s[1..], sep);
      [[s[0]] + rest[0]] + rest[1..]
  }

  /** Number of leftmost non-overlapping occurrences of `sep` in `s`. */
  function Count(s: string, sep: string): nat
    requires |sep| > 0
    decreases |s|
  {
    if |s| < |sep| then 0
    else if s[..|sep|] == sep then 1 + Count(s[|sep|..], sep)
    else Count(s[1..], sep)
  }

  /** `s.contains(sub)`: some window of `s` equals `sub`. */
  predicate Contains(s: string, sub: string)
    decreases |s|
  {
    StartsWith(s, sub) || (|s| > 0 && Contains(s[1..], sub))
  }

  lemma JoinCons(p: string, rest: seq<string>, sep: string)
    requires |rest| > 0
    ensures Join([p] + rest, sep) == p + sep + Join(rest, sep)
  {
    assert ([p] + rest)[1..] == rest;
  }

  /** Putting a character in front of the first part puts it in front of the join. */
  lemma JoinPrependChar(c: char, parts: seq<string>, sep: string)
    requires |parts| > 0
    ensures Join([[c] + parts[0]] + parts[1..], sep) == [c] + Join(parts, sep)
  {
    if |parts| > 1 {
      JoinCons([c] + parts[0], parts[1..], sep);
      JoinCons(parts[0], parts[1..], sep);
      assert [parts[0]] + parts[1..] == parts;
    }
  }

  /** Splitting and joining back with the same separator gives the text back. */
  lemma {:induction false} JoinSplit(s: string, sep: string)
    requires |sep| > 0
    ensures Join(Split(s, sep), sep) == s
    decreases |s|
  {
    if |s| < |sep| {
      assert Split(s, sep) == [s];
    } else if s[..|sep|] == sep {
      var tail := s[|sep|..];
      var rest := Split(tail, sep);
      assert Split(s, sep) == [""] + rest;
      JoinSplit(tail, sep);
      JoinCons("", rest, sep);
      assert Join(Split(s, sep), sep) == "" + sep + tail;
      assert s == sep + tail;
    } else {
      var tail := s[1..];
      var rest := Split(tail, sep);
      assert Split(s, sep) == [[s[0]] + rest[0]] + rest[1..];
      JoinSplit(tail, sep);
      JoinPrependChar(s[0], rest, sep);
      assert Join(Split(s, sep), sep) == [s[0]] + tail;
      assert s == [s[0]] + tail;
    }
  }

  /** There is one more piece than there are separators. */
  lemma {:induction false} SplitCount(s: string, sep: string)
    requires |sep| > 0
    ensures |Split(s, sep)| == Count(s, sep) + 1
    decreases |s|
  {
    if |s| < |sep| {
    } else if s[..|sep|] == sep {
      SplitCount(s[|sep|..], sep);
    } else {
      SplitCount(s[1..], sep);
    }
  }

  /** Joining with a one-character separator that no part contains and
      splitting again gives the parts back. */
  lemma {:induction false} SplitJoinChar(parts: seq<string>, c: char)
    requires |parts| > 0
    requires forall i :: 0 <= i < |parts| ==> c !in parts[i]
    ensures Split(Join(parts, [c]), [c]) == parts
    decreases |parts|, |parts[0]|
  {
    var p := parts[0];
    if |parts| == 1 {
      SplitNoSeparator(p, c);
    } else if p == "" {
      var tail := Join(parts[1..], [c]);
      assert Join(parts, [c]) == [c] + tail;
      SplitJoinChar(parts[1..], c);
      assert ([c] + tail)[1..] == tail;
      assert [""] + parts[1..] == parts;
    } else {
      var parts' := [p[1..]] + parts[1..];
      assert forall i :: 0 <= i < |parts'| ==> c !in parts'[i] by {
        assert c !in p[1..] by {
          forall k | 0 <= k < |p[1..]| ensures p[1..][k] != c {
            assert p[1..][k] in p;
          }
        }
      }
      assert p[0] != c by { assert p[0] in p; }
      JoinDropFirstChar(parts, [c]);
      var s := Join(parts, [c]);
      SplitJoinChar(parts', c);
      SplitFirstChar(s, c);
      assert [p[0]] + p[1..] == p;
      assert [p] + parts[1..] == parts;
    }
  }

  /** Dropping the first character of the text drops it from the first part. */
  lemma JoinDropFirstChar(parts: seq<string>, sep: string)
    requires |parts| > 0 && |parts[0]| > 0
    ensures |Join(parts, sep)| > 0
    ensures Join(parts, sep)[0] == parts[0][0]
    ensures Join(parts, sep)[1..] == Join([parts[0][1..]] + parts[1..], sep)
  {
    var parts' := [parts[0][1..]] + parts[1..];
    assert parts'[1..] == parts[1..];
    if |parts| > 1 {
      var tail := Join(parts[1..], sep);
      assert Join(parts, sep) == parts[0] + sep + tail;
      assert Join(parts', sep) == parts[0][1..] + sep + tail;
    }
  }

  /** A first character that is not the separator starts the first piece. */
  lemma SplitFirstChar(s: string, c: char)
    requires |s| > 0 && s[0] != c
    ensures var pieces := Split(s[1..], [c]);
      Split(s, [c]) == [[s[0]] + pieces[0]] + pieces[1..]
  {
    assert s[..1] != [c] by { assert s[..1][0] == s[0]; }
  }

  lemma {:induction false} SplitNoSeparator(s: string, c: char)
    requires c !in s
    ensures Split(s, [c]) == [s]
    decreases |s|
  {
    if |s| >= 1 {
      assert s[..1] != [c] by { assert s[0] in s; }
      SplitNoSeparator(s[1..], c);
      assert [s[0]] + s[1..] == s;
    }
  }

  /** `sub` sits in `s` starting at index `i`. */
  predicate OccursAt(s: string, sub: string, i: int) {
    0 <= i && i + |sub| <= |s| && s[i..i + |sub|] == sub
  }

  /** The substring test agrees with "some window equals `sub`", both ways. */
  lemma {:induction false} ContainsIff(s: string, sub: string)
    ensures Contains(s, sub) <==> exists i :: OccursAt(s, sub, i)
    decreases |s|
  {
    if StartsWith(s, sub) {
      assert OccursAt(s, sub, 0);
    } else if |s| == 0 {
    } else {
      ContainsIff(s[1..], sub);
      if exists i :: OccursAt(s, sub, i) {
        var i :| OccursAt(s, sub, i);
        assert i != 0;
        assert s[1..][i - 1..i - 1 + |sub|] == sub;
        assert OccursAt(s[1..], sub, i - 1);
      }
      if Contains(s[1..], sub) {
        var j :| OccursAt(s[1..], sub, j);
        assert s[j + 1..j + 1 + |sub|] == sub;
        assert OccursAt(s, sub, j + 1);
      }
    }
  }

  /** `b` occurs in `a + b + c`. */
  lemma ContainsMiddle(a: string, b: string, c: string)
    ensures Contains(a + b + c, b)
  {
    var s := a + b + c;
    assert s[|a|..|a| + |b|] == b;
    assert OccursAt(s, b, |a|);
    ContainsIff(s, b);
  }

  /** A text without the separator's first character holds no occurrence. */
  lemma {:induction false} CountWithoutFirstChar(s: string, sep: string)
    requires |sep| > 0 && sep[0] !in s
    ensures Count(s, sep) == 0
    decreases |s|
  {
    if |s| >= |sep| {
      assert s[..|sep|] != sep by { assert s[0] in s; }
      CountWithoutFirstChar(s[1..], sep);
    }
  }

  /** No occurrence of `sep` can straddle the junction of `a` and `b`. */
  predicate CutBetween(a: string, b: string, sep: string) {
    a == [] || b == [] || a[|a| - 1] !in sep || b[0] !in sep
  }

  /** An occurrence that starts in `a` and ends in `b` uses the last
      character of `a` and the first of `b`. */
  lemma StraddleChars(a: string, b: string, sep: string)
    requires 0 < |a| < |sep| <= |a| + |b|
    requires (a + b)[..|sep|] == sep
    ensures a[|a| - 1] in sep && b[0] in sep
  {
    var s := a + b;
    assert s[|a| - 1] == a[|a| - 1] && s[|a|] == b[0];
    assert sep[|a| - 1] == s[|a| - 1] && sep[|a|] == s[|a|];
  }

  /** Counting is additive over a junction no occurrence can straddle. */
  lemma {:induction false} CountAppend(a: string, b: string, sep: string)
    requires |sep| > 0
    requires CutBetween(a, b, sep)
    ensures Count(a + b, sep) == Count(a, sep) + Count(b, sep)
    decreases |a|
  {
    var n := |sep|;
    var s := a + b;
    if a == [] {
      assert s == b;
    } else if b == [] {
      assert s == a;
    } else if |s| < n {
      assert |a| < n && |b| < n;
    } else if s[..n] == sep {
      if |a| < n {
        StraddleChars(a, b, sep);
        assert false;
      } else if |a| == n {
        assert a == sep;
        assert s[n..] == b;
      } else {
        assert a[..n] == sep;
        assert s[n..] == a[n..] + b;
        CountAppend(a[n..], b, sep);
      }
    } else {
      if |a| >= n {
        assert a[..n] == s[..n];
      }
      if |a| == 1 {
        assert s[1..] == b;
        if n == 1 {
          assert a == a[..1] == s[..1];
        }
      } else {
        assert s[1..] == a[1..] + b;
        CountAppend(a[1..], b, sep);
      }
    }
  }

  // ---------------------------------------------------------------------
  // Decimal rendering, as string interpolation prints an integer.

  predicate IsDigit(c: char) {
    '0' <= c <= '9'
  }

  function DigitChar(d: nat): (c: char)
    requires d < 10
    ensures IsDigit(c)
  {
    "0123456789"[d]
  }

  function DigitValue(c: char): (d: nat)
    requires IsDigit(c)
    ensures d < 10
  {
    (c as int - '0' as int) as nat
  }

  /** The decimal digits of `n`, most significant first, without leading zeros. */
  function NatToString(n: nat): (s: string)
    ensures |s| > 0
    ensures forall i :: 0 <= i < |s| ==> IsDigit(s[i])
    ensures n > 0 ==> s[0] != '0'
    decreases n
  {
    if n < 10 then [DigitChar(n)] else NatToString(n / 10) + [DigitChar(n % 10)]
  }

  /** `"\(i)"` for an integer: a minus sign before the magnitude when negative. */
  function IntToString(i: int): string {
    if i < 0 then "-" + NatToString(-i) else NatToString(i)
  }

  function ParseNat(s: string): nat
    requires forall i :: 0 <= i < |s| ==> IsDigit(s[i])
    decreases |s|
  {
    if s == [] then 0 else ParseNat(s[..|s| - 1]) * 10 + DigitValue(s[|s| - 1])
  }

  function ParseInt(s: string): int
    requires IsDecimal(s)
  {
    if s[0] == '-' then -(ParseNat(s[1..]) as int) else ParseNat(s)
  }

  /** Reading the digits back gives the number. */
  lemma {:induction false} ParseNatToString(n: nat)
    ensures ParseNat(NatToString(n)) == n
    decreases n
  {
    if n >= 10 {
      ParseNatToString(n / 10);
      var s := NatToString(n);
      assert s[..|s| - 1] == NatToString(n / 10);
    }
  }

  /** An optional minus sign followed by digits. */
  predicate IsDecimal(s: string) {
    |s| > 0 && (s[0] == '-' || IsDigit(s[0])) && forall k :: 0 < k < |s| ==> IsDigit(s[k])
  }

  /** Printing an integer is undone by parsing it: no two integers print alike. */
  lemma ParseIntToString(i: int)
    ensures IsDecimal(IntToString(i))
    ensures ParseInt(IntToString(i)) == i
  {
    if i < 0 {
      ParseNatToString(-i);
      ParseNegative(NatToString(-i));
    } else {
      ParseNatToString(i);
      ParseDigits(NatToString(i));
    }
  }

  /** A minus sign before digits reads as the negated number. */
  lemma ParseNegative(t: string)
    requires |t| > 0 && forall k :: 0 <= k < |t| ==> IsDigit(t[k])
    ensures IsDecimal("-" + t)
    ensures ParseInt("-" + t) == -(ParseNat(t) as int)
  {
    var s := "-" + t;
    assert s[0] == '-' && s[1..] == t;
    forall k | 0 < k < |s| ensures IsDigit(s[k]) {
      assert s[k] == t[k - 1];
    }
  }

  /** Digits alone read as the number they spell. */
  lemma ParseDigits(t: string)
    requires |t| > 0 && forall k :: 0 <= k < |t| ==> IsDigit(t[k])
    ensures IsDecimal(t)
    ensures ParseInt(t) == ParseNat(t) as int
  {
    assert t[0] != '-';
  }

  // ---------------------------------------------------------------------
  // NSString.lastPathComponent

  function StripTrailingSlashes(s: string): (t: string)
    ensures |t| <= |s| && t == s[..|t|]
    ensures t == [] || t[|t| - 1] != '/'
    decreases |s|
  {
    if |s| > 0 && s[|s| - 1] == '/' then StripTrailingSlashes(s[..|s| - 1]) else s
  }

  /** The characters after the last '/' (all of `s` if it has none). */
  function AfterLastSlash(s: string): (t: string)
    ensures '/' !in t
    ensures |t| <= |s| && t == s[|s| - |t|..]
    decreases |s|
  {
    if |s| == 0 then ""
    else if s[|s| - 1] == '/' then ""
    else AfterLastSlash(s[..|s| - 1]) + [s[|s| - 1]]
  }

  /** Trailing slashes are ignored; the part after the last remaining '/' is
      returned; a path made only of slashes gives "/", the empty path "". */
  function LastPathComponent(path: string): string {
    var t := StripTrailingSlashes(path);
    if t == [] then (if path == [] then "" else "/") else AfterLastSlash(t)
  }

  /** The component is a single name: it never holds a '/' unless it is the
      root "/" itself, and it is a piece of the path. */
  lemma LastPathComponentShape(path: string)
    ensures var r := LastPathComponent(path);
      (r == "/" || '/' !in r) && |r| <= |path|
      && (r == "" <==> path == "")
  {
    var t := StripTrailingSlashes(path);
    if t != [] {
      assert t[|t| - 1] != '/';
      assert AfterLastSlash(t) != "";
    }
  }

  lemma {:induction false} AfterLastSlashOfJoin(dir: string, base: string)
    requires '/' !in base
    ensures AfterLastSlash(dir + "/" + base) == base
    decreases |base|
  {
    var d := dir + "/";
    var s := d + base;
    if base == [] {
      assert s == d;
      assert s[|s| - 1] == '/';
    } else {
      var init := base[..|base| - 1];
      var last := base[|base| - 1];
      assert last in base;
      assert s[|s| - 1] == last;
      assert s[..|s| - 1] == d + init;
      assert '/' !in init by {
        forall k | 0 <= k < |init| ensures init[k] != '/' {
          assert init[k] == base[k];
        }
      }
      AfterLastSlashOfJoin(dir, init);
      assert AfterLastSlash(s) == AfterLastSlash(d + init) + [last];
      assert base == init + [last];
    }
  }

  /** `lastPathComponent` undoes `appendingPathComponent`: the file name of
      `dir/base` is `base`, whatever the directory. */
  lemma LastPathComponentOfJoin(dir: string, base: string)
    requires base != [] && '/' !in base
    ensures LastPathComponent(dir + "/" + base) == base
  {
    var s := dir + "/" + base;
    assert s[|s| - 1] == base[|base| - 1];
    assert base[|base| - 1] in base;
    AfterLastSlashOfJoin(dir, base);
  }
}
