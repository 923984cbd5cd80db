/** String operations of the JavaScript runtime that the handlers rely on:
    `toLowerCase`, `includes`, `join`, `split`, `trim` and UTF-16 `length`. */
module Text {

  /** Lower-cases one character. Only the ASCII letters A-Z are folded. */
  function LowerChar(c: char): (r: char)
    ensures 'A' <= c <= 'Z' ==> 'a' <= r <= 'z' && r as int == c as int + 32
    ensures !('A' <= c <= 'Z') ==> r == c
  {
    if 'A' <= c <= 'Z' then (c as int + 32) as char else c
  }

  /** `String.prototype.toLowerCase`, character by character. */
  function ToLower(s: string): (r: string)
    ensures |r| == |s|
    ensures forall i :: 0 <= i < |s| ==> r[i] == LowerChar(s[i])
  {
    seq(|s|, i requires 0 <= i < |s| => LowerChar(s[i]))
  }

  /** Lower-casing a lower-cased string changes nothing. */
  lemma ToLowerIdempotent(s: string)
    ensures ToLower(ToLower(s)) == ToLower(s)
  {
  }

  /** `s.includes(pat)`: `pat` occurs in `s` as a contiguous substring. */
  predicate Contains(s: string, pat: string)
    decreases |s|
  {
    pat <= s || (|s| > 0 && Contains(s[1..], pat))
  }

  /** `Contains` is substring containment at some position. */
  lemma {:induction false} ContainsIff(s: string, pat: string)
    ensures Contains(s, pat) <==> exists i :: 0 <= i <= |s| && pat <= s[i..]
    decreases |s|
  {
    assert s[0..] == s;
    if pat <= s {
    } else if |s| > 0 {
      ContainsIff(s[1..], pat);
      if Contains(s[1..], pat) {
        var i :| 0 <= i <= |s| - 1 && pat <= s[1..][i..];
        assert s[1..][i..] == s[i + 1..];
      }
      if exists i :: 0 <= i <= |s| && pat <= s[i..] {
        var i :| 0 <= i <= |s| && pat <= s[i..];
        assert i != 0;
        assert s[1..][i - 1..] == s[i..];
      }
    }
  }

  /** A string found at position `i` is contained. */
  lemma ContainsAt(s: string, pat: string, i: nat)
    requires i <= |s| && pat <= s[i..]
    ensures Contains(s, pat)
  {
    ContainsIff(s, pat);
  }

  /** Every string contains the empty string (`"abc".includes("") === true`). */
  lemma ContainsEmpty(s: string)
    ensures Contains(s, "")
  {
    ContainsAt(s, "", 0);
  }

  /** The empty string contains only the empty string. */
  lemma ContainsInEmpty(pat: string)
    ensures Contains("", pat) <==> pat == ""
  {
  }

  /** The middle part of a concatenation is contained in it. */
  lemma ContainsInfix(a: string, b: string, c: string)
    ensures Contains(a + b + c, b)
  {
    assert (a + b + c)[|a|..] == b + c;
    ContainsAt(a + b + c, b, |a|);
  }

  /** Containment survives extending the text on either side. */
  lemma ContainsExtend(a: string, b: string, c: string, pat: string)
    requires Contains(b, pat)
    ensures Contains(a + b + c, pat)
  {
    ContainsIff(b, pat);
    var i :| 0 <= i <= |b| && pat <= b[i..];
    assert (a + b + c)[|a| + i..] == b[i..] + c;
    ContainsAt(a + b + c, pat, |a| + i);
  }

  /** Containment survives appending text. */
  lemma ContainsAppend(a: string, b: string, pat: string)
    requires Contains(a, pat)
    ensures Contains(a + b, pat)
  {
    ContainsExtend("", a, b, pat);
    assert "" + a + b == a + b;
  }

  /** Containment survives prepending text. */
  lemma ContainsPrepend(a: string, b: string, pat: string)
    requires Contains(b, pat)
    ensures Contains(a + b, pat)
  {
    ContainsExtend(a, b, "", pat);
    assert a + b + "" == a + b;
  }

  /** A string ends any concatenation it closes. */
  lemma ContainsLast(a: string, b: string)
    ensures Contains(a + b, b)
  {
    ContainsInfix(a, b, "");
    assert a + b + "" == a + b;
  }

  /** A string is a prefix of its extension. */
  lemma PrefixAppend(a: string, b: string, c: string)
    requires a <= b
    ensures a <= b + c
  {
    assert (b + c)[..|a|] == b[..|a|];
  }

  /** A common start preserves the prefix order. */
  lemma PrefixPrepend(a: string, b: string, c: string)
    requires b <= c
    ensures a + b <= a + c
  {
    assert (a + c)[..|a + b|] == a + c[..|b|];
  }

  /** Regrouping a concatenation of four parts. */
  lemma Regroup(a: string, b: string, c: string, d: string)
    ensures a + (b + c + d) == a + b + c + d
  {
  }

  /** A string is a prefix of any left-nested concatenation that starts with it. */
  lemma PrefixOfChain(a: string, b: string, c: string, d: string, e: string, f: string)
    ensures a <= a + b + c + d + e + f
  {
    assert (a + b + c + d + e + f)[..|a|] == a;
  }

  /** Putting `m` between `h` and `t`, where `h + e + t` has an empty `e`
      there, is inserting `m` at position |h|. */
  lemma InsertBetween(h: string, e: string, m: string, t: string)
    requires e == ""
    ensures |h| <= |h + e + t|
    ensures h + m + t == (h + e + t)[..|h|] + m + (h + e + t)[|h|..]
  {
    assert h + e + t == h + t;
    assert (h + t)[..|h|] == h && (h + t)[|h|..] == t;
  }

  /** A contained string is no longer than the text. */
  lemma ContainsLength(s: string, pat: string)
    requires Contains(s, pat)
    ensures |pat| <= |s|
  {
    ContainsIff(s, pat);
  }

  /** `arr.join(sep)`: the pieces with `sep` between consecutive ones. */
  function Join(xs: seq<string>, sep: string): (r: string)
    ensures |xs| == 0 ==> r == ""
    ensures |xs| == 1 ==> r == xs[0]
  {
    if |xs| == 0 then ""
    else if |xs| == 1 then xs[0]
    else xs[0] + sep + Join(xs[1..], sep)
  }

  /** Every piece of a join occurs in it. */
  lemma {:induction false} JoinContainsEach(xs: seq<string>, sep: string)
    ensures forall i :: 0 <= i < |xs| ==> Contains(Join(xs, sep), xs[i])
  {
    if |xs| == 1 {
      ContainsInfix("", xs[0], "");
      assert "" + xs[0] + "" == xs[0];
    } else if |xs| > 1 {
      var rest := Join(xs[1..], sep);
      JoinContainsEach(xs[1..], sep);
      assert Join(xs, sep) == "" + xs[0] + (sep + rest);
      ContainsInfix("", xs[0], sep + rest);
      forall i | 1 <= i < |xs|
        ensures Contains(Join(xs, sep), xs[i])
      {
        assert xs[i] == xs[1..][i - 1];
        ContainsExtend(xs[0] + sep, rest, "", xs[i]);
        assert xs[0] + sep + rest + "" == Join(xs, sep);
      }
    }
  }

  /** `s.split(d)` for a one-character separator: the maximal runs between
      occurrences of `d`; there is always at least one piece. */
  function Split(s: string, d: char): (r: seq<string>)
    ensures |r| >= 1
    ensures forall k :: 0 <= k < |r| ==> d !in r[k]
  {
    if |s| == 0 then [""]
    else
      assert s == [s[0]] + s[1..];
      var rest := Split(s[1..], d);
      if s[0] == d then [""] + rest
      else [[s[0]] + rest[0]] + rest[1..]
  }

  /** The first piece of a split is the text's longest separator-free prefix:
      it is followed by the separator or ends the text. */
  lemma {:induction false} SplitHead(s: string, d: char)
    ensures Split(s, d)[0] <= s
    ensures |Split(s, d)[0]| < |s| ==> s[|Split(s, d)[0]|] == d
  {
    if |s| > 0 {
      SplitHead(s[1..], d);
      var rest := Split(s[1..], d);
      if s[0] != d {
        var w := [s[0]] + rest[0];
        assert Split(s, d)[0] == w;
        assert s == [s[0]] + s[1..];
        if |w| < |s| {
          assert s[|w|] == s[1..][|rest[0]|];
        }
      }
    }
  }

  /** Joining the pieces of a split with the separator gives back the text. */
  lemma {:induction false} JoinSplit(s: string, d: char)
    ensures Join(Split(s, d), [d]) == s
  {
    if |s| > 0 {
      var tail := s[1..];
      assert s == [s[0]] + tail;
      JoinSplit(tail, d);
      var rest := Split(tail, d);
      var r := Split(s, d);
      if s[0] == d {
        assert r == [""] + rest;
        assert r[0] == "" && r[1..] == rest;
        assert Join(r, [d]) == "" + [d] + Join(rest, [d]);
      } else {
        assert r == [[s[0]] + rest[0]] + rest[1..];
        if |rest| == 1 {
          assert Join(r, [d]) == [s[0]] + rest[0];
        } else {
          assert r[0] == [s[0]] + rest[0] && r[1..] == rest[1..];
          assert Join(rest, [d]) == rest[0] + [d] + Join(rest[1..], [d]);
          assert Join(r, [d]) == [s[0]] + rest[0] + [d] + Join(rest[1..], [d]);
        }
      }
    }
  }

  /** Splitting a join of separator-free pieces gives back the pieces. */
  lemma {:induction false} SplitJoin(xs: seq<string>, d: char)
    requires |xs| >= 1
    requires forall k :: 0 <= k < |xs| ==> d !in xs[k]
    ensures Split(Join(xs, [d]), d) == xs
  {
    if |xs| == 1 {
      SplitPlain(xs[0], d);
    } else {
      SplitJoin(xs[1..], d);
      SplitAround(xs[0], Join(xs[1..], [d]), d);
      assert xs == [xs[0]] + xs[1..];
    }
  }

  /** A text without the separator splits into itself. */
  lemma {:induction false} SplitPlain(s: string, d: char)
    requires d !in s
    ensures Split(s, d) == [s]
  {
    if |s| > 0 {
      SplitPlain(s[1..], d);
      assert s == [s[0]] + s[1..];
    }
  }

  /** Splitting `a + d + b` with `a` separator-free puts `a` first, then the pieces of `b`. */
  lemma {:induction false} SplitAround(a: string, b: string, d: char)
    requires d !in a
    ensures Split(a + [d] + b, d) == [a] + Split(b, d)
  {
    var s := a + [d] + b;
    if |a| == 0 {
      assert s == [d] + b;
      assert s[1..] == b;
    } else {
      assert s[1..] == a[1..] + [d] + b;
      SplitAround(a[1..], b, d);
      var rest := Split(s[1..], d);
      assert rest == [a[1..]] + Split(b, d);
      assert rest[0] == a[1..] && rest[1..] == Split(b, d);
      assert s[0] == a[0] && s[0] != d;
      assert Split(s, d) == [[s[0]] + rest[0]] + rest[1..];
      assert [a[0]] + a[1..] == a;
    }
  }

  /** The characters JavaScript's `trim` and the regex class `\s` treat as
      white space: the WhiteSpace and LineTerminator code points. */
  predicate IsWhitespace(c: char) {
    || ('\t' <= c <= '\r')
    || c == ' '
    || c == '\U{A0}'
    || c == '\U{1680}'
    || ('\U{2000}' <= c <= '\U{200A}')
    || c == '\U{2028}' || c == '\U{2029}'
    || c == '\U{202F}' || c == '\U{205F}'
    || c == '\U{3000}' || c == '\U{FEFF}'
  }

  /** A string with no white space at either end. */
  predicate IsTrimmed(s: string) {
    |s| == 0 || (!IsWhitespace(s[0]) && !IsWhitespace(s[|s| - 1]))
  }

  /** Drops the leading white space. */
  function TrimStart(s: string): (r: string)
    ensures |r| <= |s| && r == s[|s| - |r|..]
    ensures |r| > 0 ==> !IsWhitespace(r[0])
    ensures forall i :: 0 <= i < |s| - |r| ==> IsWhitespace(s[i])
  {
    if |s| > 0 && IsWhitespace(s[0]) then TrimStart(s[1..]) else s
  }

  /** Drops the trailing white space. */
  function TrimEnd(s: string): (r: string)
    ensures |r| <= |s| && r == s[..|r|]
    ensures |r| > 0 ==> !IsWhitespace(r[|r| - 1])
    ensures forall i :: |r| <= i < |s| ==> IsWhitespace(s[i])
  {
    if |s| > 0 && IsWhitespace(s[|s| - 1]) then TrimEnd(s[..|s| - 1]) else s
  }

  /** `String.prototype.trim`: the text with white space removed from both ends. */
  function Trim(s: string): (r: string)
    ensures IsTrimmed(r)
  {
    TrimEnd(TrimStart(s))
  }

  /** What `trim` keeps is a contiguous part of the text. */
  lemma TrimIsInfix(s: string)
    ensures Contains(s, Trim(s))
  {
    var t := TrimStart(s);
    var r := TrimEnd(t);
    assert s[|s| - |t|..] == t;
    assert r <= s[|s| - |t|..];
    ContainsAt(s, r, |s| - |t|);
  }

  /** Trimming a trimmed string changes nothing. */
  lemma TrimTrimmed(s: string)
    requires IsTrimmed(s)
    ensures Trim(s) == s
  {
    assert TrimStart(s) == s;
    assert TrimEnd(s) == s;
  }

  /** Leading white space before a trimmed string is removed by `trim`. */
  lemma TrimLeadingSpace(x: string)
    requires IsTrimmed(x)
    ensures Trim(" " + x) == x
  {
    assert (" " + x)[1..] == x;
  }

  /** The JavaScript `length` of a string: its number of UTF-16 code units;
      a character outside the Basic Multilingual Plane takes two. */
  function Utf16Length(s: string): (n: nat)
    ensures |s| <= n <= 2 * |s|
  {
    if |s| == 0 then 0
    else (if s[0] as int >= 0x1_0000 then 2 else 1) + Utf16Length(s[1..])
  }
}
