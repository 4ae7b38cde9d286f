/** String operations of the two runtimes the core relies on: Python's
    str.strip/split/join/replace/lower and JavaScript's String.trim/split.
    Strings are sequences of Unicode scalar values. */
module Text {

  /** A character Python's str.isspace() accepts, so str.strip() removes it. */
  predicate PyWhitespace(c: char)
  {
    var n := c as int;
    (9 <= n <= 13) || (28 <= n <= 32) || n == 0x85 || n == 0xA0 || n == 0x1680 ||
    (0x2000 <= n <= 0x200A) || n == 0x2028 || n == 0x2029 || n == 0x202F ||
    n == 0x205F || n == 0x3000
  }

  /** A character in JavaScript's WhiteSpace or LineTerminator sets: what
      String.prototype.trim removes and what the regular expression \s matches. */
  predicate JsWhitespace(c: char)
  {
    var n := c as int;
    (9 <= n <= 13) || n == 32 || n == 0xA0 || n == 0x1680 ||
    (0x2000 <= n <= 0x200A) || n == 0x2028 || n == 0x2029 || n == 0x202F ||
    n == 0x205F || n == 0x3000 || n == 0xFEFF
  }

  /** Neither end of s is a space in the sense of ws. */
  predicate Trimmed(s: string, ws: char -> bool)
  {
    s == [] || (!ws(s[0]) && !ws(s[|s| - 1]))
  }

  /** Drops the leading run of ws characters. */
  function StripLeft(s: string, ws: char -> bool): (r: string)
    ensures |r| <= |s|
    decreases |s|
  {
    if s != [] && ws(s[0]) then StripLeft(s[1..], ws) else s
  }

  /** What StripLeft leaves is a suffix of s that does not start with a
      space, and everything it dropped is space. */
  lemma {:induction false} StripLeftSpec(s: string, ws: char -> bool)
    ensures var r := StripLeft(s, ws);
            && r == s[|s| - |r|..]
            && (forall i :: 0 <= i < |s| - |r| ==> ws(s[i]))
            && (r == [] || !ws(r[0]))
    decreases |s|
  {
    if s != [] && ws(s[0]) {
      StripLeftSpec(s[1..], ws);
    }
  }

  /** Drops the trailing run of ws characters. */
  function StripRight(s: string, ws: char -> bool): (r: string)
    ensures |r| <= |s|
    decreases |s|
  {
    if s != [] && ws(s[|s| - 1]) then StripRight(s[..|s| - 1], ws) else s
  }

  /** What StripRight leaves is a prefix of s that does not end with a
      space, and everything it dropped is space. */
  lemma {:induction false} StripRightSpec(s: string, ws: char -> bool)
    ensures var r := StripRight(s, ws);
            && r == s[..|r|]
            && (forall i :: |r| <= i < |s| ==> ws(s[i]))
            && (r == [] || !ws(r[|r| - 1]))
    decreases |s|
  {
    if s != [] && ws(s[|s| - 1]) {
      StripRightSpec(s[..|s| - 1], ws);
    }
  }

  /** r sits at offset i of s and everything of s around it is space. */
  predicate PaddedAt(s: string, r: string, i: int, ws: char -> bool)
  {
    0 <= i <= |s| - |r| && r == s[i..i + |r|] &&
    (forall j :: 0 <= j < i ==> ws(s[j])) &&
    (forall j :: i + |r| <= j < |s| ==> ws(s[j]))
  }

  /** Both ends stripped: Python's s.strip() with ws = PyWhitespace,
      JavaScript's s.trim() with ws = JsWhitespace. */
  function Strip(s: string, ws: char -> bool): (r: string)
    ensures |r| <= |s|
  {
    StripRight(StripLeft(s, ws), ws)
  }

  /** The stripped string is the middle of s, with no space at either end,
      and every character removed is a space. */
  lemma StripSpec(s: string, ws: char -> bool)
    ensures Trimmed(Strip(s, ws), ws)
    ensures PaddedAt(s, Strip(s, ws), |s| - |StripLeft(s, ws)|, ws)
  {
    var left := StripLeft(s, ws);
    StripLeftSpec(s, ws);
    StripRightSpec(left, ws);
    var r := Strip(s, ws);
    var i := |s| - |left|;
    assert r == s[i..i + |r|];
    forall j | i + |r| <= j < |s|
      ensures ws(s[j])
    {
      assert s[j] == left[j - i];
    }
  }

  /** A string with no non-space character strips to the empty string. */
  lemma StripAllSpace(s: string, ws: char -> bool)
    requires forall j :: 0 <= j < |s| ==> ws(s[j])
    ensures Strip(s, ws) == []
  {
    StripSpec(s, ws);
  }

  /** Stripping adds no character: one absent from s is absent from the result. */
  lemma StripKeepsOut(s: string, ws: char -> bool, c: char)
    requires c !in s
    ensures c !in Strip(s, ws)
  {
    var left := StripLeft(s, ws);
    StripLeftSpec(s, ws);
    StripRightSpec(left, ws);
    var r := Strip(s, ws);
    var i := |s| - |left|;
    forall j | 0 <= j < |r|
      ensures r[j] != c
    {
      assert r[j] == left[j] == s[i + j];
    }
  }

  /** A trimmed string preceded by spaces strips back to itself. */
  lemma {:induction false} StripSpacePrefix(pad: string, s: string, ws: char -> bool)
    requires forall j :: 0 <= j < |pad| ==> ws(pad[j])
    requires Trimmed(s, ws)
    ensures Strip(pad + s, ws) == s
  {
    if pad == [] {
      assert pad + s == s;
      assert StripLeft(s, ws) == s;
      assert StripRight(s, ws) == s;
    } else {
      assert (pad + s)[1..] == pad[1..] + s;
      StripSpacePrefix(pad[1..], s, ws);
      assert StripLeft(pad + s, ws) == StripLeft(pad[1..] + s, ws);
    }
  }

  /** Python's s.startswith(prefix), compared character by character. */
  predicate StartsWith(s: string, prefix: string)
    decreases |prefix|
  {
    prefix == [] || (s != [] && s[0] == prefix[0] && StartsWith(s[1..], prefix[1..]))
  }

  /** The prefix test agrees with comparing the first |prefix| characters. */
  lemma {:induction false} StartsWithIsPrefix(s: string, prefix: string)
    ensures StartsWith(s, prefix) <==> |prefix| <= |s| && s[..|prefix|] == prefix
    decreases |prefix|
  {
    if prefix != [] && s != [] {
      StartsWithIsPrefix(s[1..], prefix[1..]);
      if |prefix| <= |s| {
        assert s[..|prefix|] == [s[0]] + s[1..][..|prefix| - 1];
        assert prefix == [prefix[0]] + prefix[1..];
      }
    }
  }

  /** Python's `sub in s`: sub occurs somewhere in s. */
  predicate Contains(s: string, sub: string)
    decreases |s|
  {
    StartsWith(s, sub) || (s != [] && Contains(s[1..], sub))
  }

  /** An occurrence at offset i is found by the substring test. */
  lemma {:induction false} ContainsAt(s: string, sub: string, i: nat)
    requires i <= |s| && StartsWith(s[i..], sub)
    ensures Contains(s, sub)
    decreases i
  {
    if i > 0 {
      assert s[1..][i - 1..] == s[i..];
      ContainsAt(s[1..], sub, i - 1);
    }
  }

  /** `sub in s` holds exactly when sub starts at some offset of s. */
  lemma {:induction false} ContainsIff(s: string, sub: string)
    ensures Contains(s, sub) <==> exists i :: 0 <= i <= |s| && StartsWith(s[i..], sub)
    decreases |s|
  {
    if Contains(s, sub) {
      if StartsWith(s, sub) {
        assert s[0..] == s;
      } else {
        ContainsIff(s[1..], sub);
        var j :| 0 <= j <= |s[1..]| && StartsWith(s[1..][j..], sub);
        assert s[1..][j..] == s[j + 1..];
      }
    }
    if exists i :: 0 <= i <= |s| && StartsWith(s[i..], sub) {
      var i :| 0 <= i <= |s| && StartsWith(s[i..], sub);
      ContainsAt(s, sub, i);
    }
  }

  /** One more character in front that cannot start sub adds no
      occurrence. */
  lemma ContainsCons(c: char, s: string, sub: string)
    requires sub != [] && c != sub[0]
    ensures Contains([c] + s, sub) <==> Contains(s, sub)
  {
    assert ([c] + s)[1..] == s;
  }

  /** A string that begins with a + b contains b. */
  lemma StartsWithContainsTail(s: string, a: string, b: string)
    requires StartsWith(s, a + b)
    ensures Contains(s, b)
  {
    StartsWithIsPrefix(s, a + b);
    StartsWithIsPrefix(s[|a|..], b);
    assert s[|a|..][..|b|] == (a + b)[|a|..];
    ContainsAt(s, b, |a|);
  }

  /** A string that begins with p contains everything p contains. */
  lemma {:induction false} ContainsThroughPrefix(s: string, p: string, sub: string)
    requires StartsWith(s, p)
    requires Contains(p, sub)
    ensures Contains(s, sub)
    decreases |p|
  {
    if StartsWith(p, sub) {
      StartsWithIsPrefix(s, p);
      StartsWithIsPrefix(p, sub);
      StartsWithIsPrefix(s, sub);
      assert s[..|sub|] == s[..|p|][..|sub|];
    } else {
      ContainsThroughPrefix(s[1..], p[1..], sub);
    }
  }

  /** Python's str.lower() on ASCII letters; other characters are kept. */
  function LowerChar(c: char): char
  {
    if 'A' <= c <= 'Z' then (c as int + 32) as char else c
  }

  /** s.lower(): no capital letter is left, capitals become their small
      letters and every other character is kept. */
  function Lower(s: string): (r: string)
    ensures |r| == |s|
    ensures forall i :: 0 <= i < |r| ==> !('A' <= r[i] <= 'Z')
    ensures forall i :: 0 <= i < |s| ==>
              r[i] == s[i] || ('A' <= s[i] <= 'Z' && r[i] as int == s[i] as int + 32)
  {
    seq(|s|, i requires 0 <= i < |s| => LowerChar(s[i]))
  }

  /** Lowering twice is lowering once. */
  lemma LowerIdempotent(s: string)
    ensures Lower(Lower(s)) == Lower(s)
  {
    var r := Lower(s);
    forall i | 0 <= i < |r|
      ensures Lower(r)[i] == r[i]
    {
      assert !('A' <= r[i] <= 'Z');
    }
  }

  /** Python's s.replace(target, with): every non-overlapping occurrence of
      target, scanning left to right, is replaced by `with`. */
  function Replace(s: string, target: string, with: string): string
    requires target != []
    decreases |s|
  {
    if |s| < |target| then s
    else if s[..|target|] == target then with + Replace(s[|target|..], target, with)
    else [s[0]] + Replace(s[1..], target, with)
  }

  /** With no occurrence of target, replace changes nothing. */
  lemma {:induction false} ReplaceAbsent(s: string, target: string, with: string)
    requires target != []
    requires !Contains(s, target)
    ensures Replace(s, target, with) == s
    decreases |s|
  {
    if |s| >= |target| {
      StartsWithIsPrefix(s, target);
      ReplaceAbsent(s[1..], target, with);
      assert [s[0]] + s[1..] == s;
    }
  }

  /** An occurrence at the very start is replaced, and the scan goes on
      after it. */
  lemma ReplaceAtStart(target: string, rest: string, with: string)
    requires target != []
    ensures Replace(target + rest, target, with) == with + Replace(rest, target, with)
  {
    assert (target + rest)[..|target|] == target;
    assert (target + rest)[|target|..] == rest;
  }

  /** With no occurrence of target starting before i > 0, there is none at
      0 and none before i - 1 in the tail. */
  lemma NoEarlierOccurrence(s: string, target: string, i: nat)
    requires target != [] && 0 < i && i + |target| <= |s|
    requires !Contains(s[..i + |target| - 1], target)
    ensures s[..|target|] != target
    ensures !Contains(s[1..][..i - 1 + |target| - 1], target)
  {
    var pre := s[..i + |target| - 1];
    assert pre[..|target|] == s[..|target|];
    StartsWithIsPrefix(pre, target);
    assert pre[1..] == s[1..][..i - 1 + |target| - 1];
  }

  /** No occurrence at the start: the first character is kept and the scan
      moves on by one. */
  lemma ReplaceShift(s: string, target: string, with: string, i: nat, r: string)
    requires target != [] && 0 < i && |target| <= |s| && i <= |s|
    requires s[..|target|] != target
    requires Replace(s[1..], target, with) == s[1..][..i - 1] + with + r
    ensures Replace(s, target, with) == s[..i] + with + r
  {
    var head, kept := [s[0]], s[1..][..i - 1];
    assert Replace(s, target, with) == head + Replace(s[1..], target, with);
    ConcatAssoc(head, kept + with, r);
    ConcatAssoc(head, kept, with);
    assert head + kept == s[..i];
  }

  /** Scanning left to right, the first occurrence of target (at i, with
      none starting earlier) is the first one replaced: what comes before
      it is kept and the scan resumes after it. */
  lemma {:induction false} ReplaceLeftmost(s: string, target: string, with: string, i: nat)
    requires target != []
    requires i + |target| <= |s| && s[i..i + |target|] == target
    requires !Contains(s[..i + |target| - 1], target)
    ensures Replace(s, target, with) == s[..i] + with + Replace(s[i + |target|..], target, with)
    decreases i
  {
    if i == 0 {
      assert s[..0] == [];
      assert s[..|target|] == target;
    } else {
      NoEarlierOccurrence(s, target, i);
      var tail := s[1..];
      assert tail[i - 1..i - 1 + |target|] == target;
      ReplaceLeftmost(tail, target, with, i - 1);
      assert tail[i - 1 + |target|..] == s[i + |target|..];
      ReplaceShift(s, target, with, i, Replace(s[i + |target|..], target, with));
    }
  }

  /** Concatenation regroups. */
  lemma ConcatAssoc(a: string, b: string, c: string)
    ensures a + b + c == a + (b + c)
  {
  }

  /** The two halves of a concatenation are its slices. */
  lemma ConcatParts(a: string, b: string)
    ensures (a + b)[..|a|] == a
    ensures (a + b)[|a|..] == b
  {
  }

  /** The middle part of a three-way concatenation is its slice. */
  lemma ConcatMiddle(a: string, b: string, c: string)
    ensures (a + b + c)[|a|..|a| + |b|] == b
  {
  }

  /** Number of occurrences of c in s. */
  function CountChar(s: string, c: char): nat
  {
    if s == [] then 0 else (if s[0] == c then 1 else 0) + CountChar(s[1..], c)
  }

  /** s.split(c) for a one-character separator, in both Python and
      JavaScript: the pieces between the separators, one more than there are
      separators, none of them containing the separator. */
  function Split(s: string, c: char): (r: seq<string>)
    ensures |r| == CountChar(s, c) + 1
    ensures forall k :: 0 <= k < |r| ==> c !in r[k]
    decreases |s|
  {
    if s == [] then [[]]
    else
      var rest := Split(s[1..], c);
      if s[0] == c then [[]] + rest else [[s[0]] + rest[0]] + rest[1..]
  }

  /** sep.join(xs) in Python; the pieces with sep between neighbours. */
  function Join(xs: seq<string>, sep: string): string
  {
    if |xs| == 0 then []
    else if |xs| == 1 then xs[0]
    else xs[0] + sep + Join(xs[1..], sep)
  }

  /** Sum of the lengths of the pieces. */
  function TotalLength(xs: seq<string>): nat
  {
    if xs == [] then 0 else |xs[0]| + TotalLength(xs[1..])
  }

  /** The length of a join of a non-empty list: the pieces' total length
      plus one separator per gap. */
  lemma {:induction false} JoinLength(xs: seq<string>, sep: string)
    requires |xs| > 0
    ensures |Join(xs, sep)| == TotalLength(xs) + (|xs| - 1) * |sep|
    decreases |xs|
  {
    if |xs| > 1 {
      JoinLength(xs[1..], sep);
    } else {
      assert xs[1..] == [];
    }
  }

  /** Joining one more piece on the right appends the separator and it. */
  lemma {:induction false} JoinSnoc(xs: seq<string>, x: string, sep: string)
    ensures Join(xs + [x], sep) == if xs == [] then x else Join(xs, sep) + sep + x
  {
    if |xs| > 1 {
      assert (xs + [x])[1..] == xs[1..] + [x];
      JoinSnoc(xs[1..], x, sep);
    } else if |xs| == 1 {
      assert (xs + [x])[1..] == [x];
    } else {
      assert xs + [x] == [x];
    }
  }

  /** Splitting is undone by joining with the same separator. */
  lemma {:induction false} SplitJoin(s: string, c: char)
    ensures Join(Split(s, c), [c]) == s
    decreases |s|
  {
    if s != [] {
      var rest := Split(s[1..], c);
      SplitJoin(s[1..], c);
      if s[0] == c {
        assert Join([[]] + rest, [c]) == [] + [c] + Join(rest, [c]);
        assert s == [c] + s[1..];
      } else if |rest| == 1 {
        assert s == [s[0]] + s[1..];
      } else {
        var r := [[s[0]] + rest[0]] + rest[1..];
        assert r[1..] == rest[1..];
        assert Join(rest, [c]) == rest[0] + [c] + Join(rest[1..], [c]);
        assert s == [s[0]] + s[1..];
      }
    }
  }

  /** Joining pieces free of the separator is undone by splitting. */
  lemma {:induction false} JoinSplit(xs: seq<string>, c: char)
    requires |xs| > 0
    requires forall k :: 0 <= k < |xs| ==> c !in xs[k]
    ensures Split(Join(xs, [c]), c) == xs
    decreases |xs|, |xs[0]|
  {
    if |xs| == 1 {
      SplitFree(xs[0], c);
    } else if xs[0] == [] {
      var tail := Join(xs[1..], [c]);
      assert Join(xs, [c]) == [c] + tail;
      assert ([c] + tail)[1..] == tail;
      JoinSplit(xs[1..], c);
      assert xs == [[]] + xs[1..];
    } else {
      var s := Join(xs, [c]);
      var ys := [xs[0][1..]] + xs[1..];
      assert ys[1..] == xs[1..];
      assert forall k :: 0 <= k < |ys| ==> c !in ys[k] by {
        forall k | 0 <= k < |ys| ensures c !in ys[k] {
          if k == 0 {
            assert forall j :: 0 <= j < |xs[0][1..]| ==> xs[0][1..][j] == xs[0][j + 1];
          }
        }
      }
      assert s == [xs[0][0]] + Join(ys, [c]);
      assert s[1..] == Join(ys, [c]);
      JoinSplit(ys, c);
      assert xs[0][0] != c;
      assert [xs[0][0]] + xs[0][1..] == xs[0];
      assert [[xs[0][0]] + ys[0]] + ys[1..] == xs;
    }
  }

  /** A string without the separator splits into itself alone. */
  lemma {:induction false} SplitFree(s: string, c: char)
    requires c !in s
    ensures Split(s, c) == [s]
    decreases |s|
  {
    if s != [] {
      assert c !in s[1..] by {
        assert forall j :: 0 <= j < |s[1..]| ==> s[1..][j] == s[j + 1];
      }
      SplitFree(s[1..], c);
      assert [s[0]] + s[1..] == s;
    }
  }

  /** The decimal digit for d < 10. */
  function DigitChar(d: nat): char
    requires d < 10
  {
    ('0' as int + d) as char
  }

  /** Decimal rendering of a natural number, as Python's f"{n}" and
      JavaScript's `${n}` produce it: no sign, no leading zero. */
  function NatToString(n: nat): (r: string)
    ensures 1 <= |r|
    ensures forall i :: 0 <= i < |r| ==> '0' <= r[i] <= '9'
    ensures |r| == 1 <==> n < 10
    ensures |r| == 1 || r[0] != '0'
  {
    if n < 10 then [DigitChar(n)] else NatToString(n / 10) + [DigitChar(n % 10)]
  }

  /** All characters are decimal digits. */
  predicate IsDigits(s: string)
  {
    forall i :: 0 <= i < |s| ==> '0' <= s[i] <= '9'
  }

  /** The number a string of decimal digits spells, read left to right as
      Python's int() and JavaScript's Number() read it. */
  function DigitsValue(s: string): nat
    requires IsDigits(s)
  {
    if s == [] then 0
    else DigitsValue(s[..|s| - 1]) * 10 + (s[|s| - 1] as int - '0' as int)
  }

  /** The rendering spells n. */
  lemma {:induction false} NatToStringValue(n: nat)
    ensures DigitsValue(NatToString(n)) == n
  {
    var r := NatToString(n);
    if n < 10 {
      assert r[..0] == [];
    } else {
      assert r[..|r| - 1] == NatToString(n / 10);
      NatToStringValue(n / 10);
    }
  }

  /** Every non-empty digit string without a leading zero is the rendering
      of the number it spells, so the rendering is the only such spelling. */
  lemma {:induction false} NatToStringCanonical(s: string)
    requires |s| >= 1 && IsDigits(s)
    requires |s| == 1 || s[0] != '0'
    ensures NatToString(DigitsValue(s)) == s
    decreases |s|
  {
    var last := s[|s| - 1];
    var d := last as int - '0' as int;
    assert DigitChar(d) == last;
    if |s| == 1 {
      assert s[..0] == [];
    } else {
      var p := s[..|s| - 1];
      assert p[0] == s[0];
      NatToStringCanonical(p);
      var v := DigitsValue(p);
      assert NatToString(0) == ['0'];
      assert v != 0;
      assert DigitsValue(s) / 10 == v && DigitsValue(s) % 10 == d;
      assert s == p + [last];
    }
  }

  /** Different numbers have different decimal renderings. */
  lemma {:induction false} NatToStringInjective(m: nat, n: nat)
    requires NatToString(m) == NatToString(n)
    ensures m == n
  {
    if m >= 10 && n >= 10 {
      var sm, sn := NatToString(m), NatToString(n);
      assert sm[..|sm| - 1] == NatToString(m / 10);
      assert sn[..|sn| - 1] == NatToString(n / 10);
      NatToStringInjective(m / 10, n / 10);
      assert DigitChar(m % 10) == sm[|sm| - 1] == sn[|sn| - 1] == DigitChar(n % 10);
    }
  }
}
