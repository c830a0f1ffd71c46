/** The handful of Python `str` operations the bot's engine relies on, with their
    Python semantics: `strip`, `splitlines`, `startswith`, `split`/`rsplit` on one
    separator, `isdigit` (ASCII digits only), `int` of a digit string, `str` of an
    integer, `lower` (ASCII letters only), substring `in` and `"\n".join`. */
module Text {

  import opened Wrappers

  /** Python's `str.isspace()`: the characters `strip()` removes. */
  predicate IsSpace(c: char) {
    c == ' ' || ('\t' <= c <= '\r') || ('\U{1C}' <= c <= '\U{1F}') || c == '\U{85}' || c == '\U{A0}'
    || c == '\U{1680}' || ('\U{2000}' <= c <= '\U{200A}') || c == '\U{2028}' || c == '\U{2029}'
    || c == '\U{202F}' || c == '\U{205F}' || c == '\U{3000}'
  }

  /** The line boundaries of Python's `str.splitlines()`. */
  predicate IsLineBreak(c: char) {
    ('\n' <= c <= '\r') || ('\U{1C}' <= c <= '\U{1E}') || c == '\U{85}' || c == '\U{2028}' || c == '\U{2029}'
  }

  lemma LineBreakIsSpace(c: char)
    requires IsLineBreak(c)
    ensures IsSpace(c)
  {
  }

  predicate NoLineBreak(s: string) {
    forall i :: 0 <= i < |s| ==> !IsLineBreak(s[i])
  }

  /** `s.lstrip()`. */
  function TrimLeft(s: string): (r: string)
    ensures |r| <= |s| && r == s[|s| - |r|..]
    ensures r == [] || !IsSpace(r[0])
    ensures forall i :: 0 <= i < |s| - |r| ==> IsSpace(s[i])
  {
    if s != [] && IsSpace(s[0]) then TrimLeft(s[1..]) else s
  }

  /** `s.rstrip()`. */
  function TrimRight(s: string): (r: string)
    ensures |r| <= |s| && r == s[..|r|]
    ensures r == [] || !IsSpace(r[|r| - 1])
    ensures forall i :: |r| <= i < |s| ==> IsSpace(s[i])
  {
    if s != [] && IsSpace(s[|s| - 1]) then TrimRight(s[..|s| - 1]) else s
  }

  /** A string that `strip()` leaves alone. */
  predicate Stripped(s: string) {
    s == [] || (!IsSpace(s[0]) && !IsSpace(s[|s| - 1]))
  }

  /** `s.strip()`: a contiguous piece of `s`, without white space at either end. */
  function Strip(s: string): (r: string)
    ensures Stripped(r)
    ensures |r| <= |s|
    ensures forall c :: c in r ==> c in s
    ensures Stripped(s) ==> r == s
  {
    var l := TrimLeft(s);
    var r := TrimRight(l);
    assert r == [] || r[0] == l[0];
    assert forall c :: c in r ==> c in l;
    r
  }

  /** `lstrip()` removes nothing past a character that is not white space. */
  lemma TrimLeftStopsAt(s: string, j: nat)
    requires j < |s| && !IsSpace(s[j])
    ensures |s| - |TrimLeft(s)| <= j
  {
  }

  /** `rstrip()` leaves a string that ends with a character that is not white space. */
  lemma TrimRightKeeps(l: string)
    requires l != [] && !IsSpace(l[|l| - 1])
    ensures TrimRight(l) == l
  {
  }

  /** `strip()` keeps one contiguous piece `s[k..k + |Strip(s)|]` and removes only
      white space: everything before `k` and everything after the piece. */
  lemma StripPiece(s: string) returns (k: nat)
    ensures k + |Strip(s)| <= |s| && Strip(s) == s[k..k + |Strip(s)|]
    ensures forall i :: 0 <= i < k ==> IsSpace(s[i])
    ensures forall i :: k + |Strip(s)| <= i < |s| ==> IsSpace(s[i])
  {
    var l := TrimLeft(s);
    k := |s| - |l|;
    var r := TrimRight(l);
    assert Strip(s) == r;
    assert l == s[k..];
    forall i | k + |r| <= i < |s| ensures IsSpace(s[i]) {
      assert s[i] == l[i - k];
    }
  }

  /** Stripping a string whose last character and `s[j]` are not white space leaves a
      suffix that starts at or before `j`. */
  lemma StripFrom(s: string, j: nat) returns (k: nat)
    requires j < |s| && !IsSpace(s[j]) && !IsSpace(s[|s| - 1])
    ensures k <= j && Strip(s) == s[k..]
  {
    k := |s| - |TrimLeft(s)|;
    assert k <= j by {
      TrimLeftStopsAt(s, j);
    }
    var l := s[k..];
    assert TrimLeft(s) == l;
    assert TrimRight(l) == l by {
      assert l[|l| - 1] == s[|s| - 1];
      TrimRightKeeps(l);
    }
  }

  lemma StripKeepsNoLineBreak(s: string)
    requires NoLineBreak(s)
    ensures NoLineBreak(Strip(s))
  {
    var r := Strip(s);
    forall i | 0 <= i < |r| ensures !IsLineBreak(r[i]) {
      assert r[i] in r;
    }
  }

  /** `s.startswith(p)`. */
  predicate StartsWith(s: string, p: string) {
    |p| <= |s| && s[..|p|] == p
  }

  /** `any(s.startswith(p) for p in ps)`. */
  predicate StartsWithAny(s: string, ps: seq<string>) {
    exists i :: 0 <= i < |ps| && StartsWith(s, ps[i])
  }

  predicate IsDigit(c: char) {
    '0' <= c <= '9'
  }

  /** `s.isdigit()`, taken over ASCII digits: false on the empty string. */
  predicate IsDigits(s: string) {
    s != [] && forall i :: 0 <= i < |s| ==> IsDigit(s[i])
  }

  /** `int(s)` of a string of ASCII digits (leading zeros allowed). */
  function DigitsValue(s: string): nat
    requires forall i :: 0 <= i < |s| ==> IsDigit(s[i])
  {
    if s == [] then 0
    else
      assert IsDigit(s[|s| - 1]);
      DigitsValue(s[..|s| - 1]) * 10 + (s[|s| - 1] as int - '0' as int)
  }

  /** `str(n)` of a Python `int`. */
  function DecimalString(n: int): (r: string)
    ensures r != []
    decreases if n < 0 then 1 - n else n
  {
    if n < 0 then "-" + DecimalString(-n)
    else if n < 10 then [('0' as int + n) as char]
    else DecimalString(n / 10) + [('0' as int + n % 10) as char]
  }

  /** `str(n).isdigit()` holds exactly for non-negative `n`, and then `int(str(n)) == n`. */
  lemma {:induction false} DecimalStringDigits(n: int)
    ensures IsDigits(DecimalString(n)) <==> n >= 0
    ensures n >= 0 ==> IsDigits(DecimalString(n)) && DigitsValue(DecimalString(n)) == n
    decreases if n < 0 then 1 - n else n
  {
    if n < 0 {
      assert DecimalString(n)[0] == '-';
    } else if n >= 10 {
      DecimalStringDigits(n / 10);
      var s := DecimalString(n);
      assert s[..|s| - 1] == DecimalString(n / 10);
    }
  }

  /** `c.lower()` for ASCII letters; every other character is kept. */
  function LowerChar(c: char): char {
    if 'A' <= c <= 'Z' then (c as int - 'A' as int + 'a' as int) as char else c
  }

  /** `s.lower()`, ASCII letters only. */
  function Lower(s: string): (r: string)
    ensures |r| == |s|
    ensures forall i :: 0 <= i < |s| ==> r[i] == LowerChar(s[i])
  {
    seq(|s|, i requires 0 <= i < |s| => LowerChar(s[i]))
  }

  /** Python's `sub in s`. */
  predicate Contains(s: string, sub: string) {
    StartsWith(s, sub) || (s != [] && Contains(s[1..], sub))
  }

  lemma {:induction false} ContainsAt(s: string, sub: string, i: nat)
    requires i + |sub| <= |s| && s[i..i + |sub|] == sub
    ensures Contains(s, sub)
  {
    if i > 0 {
      assert s[1..][i - 1..i - 1 + |sub|] == s[i..i + |sub|];
      ContainsAt(s[1..], sub, i - 1);
    }
  }

  /** `s.split(c)[0]`: the text before the first `c`. */
  function BeforeFirst(s: string, c: char): (r: string)
    ensures c !in r
    ensures |r| <= |s| && r == s[..|r|]
    ensures |r| < |s| ==> s[|r|] == c
    ensures c !in s ==> r == s
  {
    if s == [] then []
    else if s[0] == c then []
    else [s[0]] + BeforeFirst(s[1..], c)
  }

  /** `s.split(c)[-1]`: the text after the last `c` (all of `s` when there is none). */
  function AfterLast(s: string, c: char): (r: string)
    ensures c !in r
    ensures |r| <= |s| && r == s[|s| - |r|..]
    ensures |r| < |s| ==> s[|s| - |r| - 1] == c
    ensures c !in s ==> r == s
  {
    if s == [] then []
    else if s[|s| - 1] == c then []
    else AfterLast(s[..|s| - 1], c) + [s[|s| - 1]]
  }

  /** Text after the last `c` of `u + [c] + t` is `t` when `c` is not in `t`. */
  lemma AfterLastSuffix(u: string, t: string, c: char)
    requires c !in t
    ensures AfterLast(u + [c] + t, c) == t
  {
    var s := u + [c] + t;
    assert s[|u|] == c;
    assert s[|u| + 1..] == t;
  }

  /** `s.rsplit(c, 1)` when `c in s`; `None` when it is not. */
  function RSplit(s: string, c: char): (r: Option<(string, string)>)
    ensures r.None? <==> c !in s
    ensures r.Some? ==> s == r.value.0 + [c] + r.value.1 && c !in r.value.1
  {
    if c !in s then None
    else
      var right := AfterLast(s, c);
      assert |right| < |s|;
      Some((s[..|s| - |right| - 1], right))
  }

  /** `s.split(sep, 1)[1]` when `sep in s`; `None` where Python raises `IndexError`. */
  function AfterFirst(s: string, sep: string): Option<string>
    requires sep != []
  {
    if |s| < |sep| then None
    else if s[..|sep|] == sep then Some(s[|sep|..])
    else AfterFirst(s[1..], sep)
  }

  /** Splitting a string that begins with `q + sep` finds the `sep` that follows `q`,
      provided no occurrence of `sep` can start inside `q`. */
  lemma {:induction false} AfterFirstPrefix(s: string, q: string, sep: string)
    requires sep != [] && sep[0] !in q
    requires StartsWith(s, q + sep)
    ensures AfterFirst(s, sep) == Some(s[|q| + |sep|..])
  {
    if q != [] {
      assert s[0] == q[0];
      assert s[..|sep|][0] != sep[0];
      assert s[1..][..|q| - 1 + |sep|] == s[1..|q| + |sep|];
      assert q[1..] + sep == (q + sep)[1..];
      AfterFirstPrefix(s[1..], q[1..], sep);
    } else {
      assert s[..|sep|] == sep;
    }
  }

  /** `"\n".join(ls)`. */
  function JoinLines(ls: seq<string>): string {
    if ls == [] then ""
    else if |ls| == 1 then ls[0]
    else ls[0] + "\n" + JoinLines(ls[1..])
  }

  /** `s.splitlines()`: lines end at any line boundary, `"\r\n"` counting as one;
      a trailing boundary does not start an empty last line. */
  function SplitLines(s: string): (r: seq<string>)
    ensures forall i :: 0 <= i < |r| ==> NoLineBreak(r[i])
  {
    LinesFromNoLineBreak(s, []);
    LinesFrom(s, [])
  }

  /** `SplitLines` with `cur` the part of the current line already read. */
  function LinesFrom(s: string, cur: string): seq<string>
    decreases |s|
  {
    if s == [] then (if cur == [] then [] else [cur])
    else if IsLineBreak(s[0]) then
      var skip := if s[0] == '\r' && |s| > 1 && s[1] == '\n' then 2 else 1;
      [cur] + LinesFrom(s[skip..], [])
    else LinesFrom(s[1..], cur + [s[0]])
  }

  /** No line that `splitlines` produces holds a line boundary. */
  lemma {:induction false} LinesFromNoLineBreak(s: string, cur: string)
    requires NoLineBreak(cur)
    ensures forall i :: 0 <= i < |LinesFrom(s, cur)| ==> NoLineBreak(LinesFrom(s, cur)[i])
    decreases |s|
  {
    if s == [] {
    } else if IsLineBreak(s[0]) {
      var skip := if s[0] == '\r' && |s| > 1 && s[1] == '\n' then 2 else 1;
      LinesFromNoLineBreak(s[skip..], []);
    } else {
      LinesFromNoLineBreak(s[1..], cur + [s[0]]);
    }
  }

  /** Text without line boundaries is simply added to the current line. */
  lemma {:induction false} LinesFromText(w: string, rest: string, cur: string)
    requires NoLineBreak(w)
    ensures LinesFrom(w + rest, cur) == LinesFrom(rest, cur + w)
    decreases |w|
  {
    if w != [] {
      assert (w + rest)[0] == w[0];
      assert (w + rest)[1..] == w[1..] + rest;
      LinesFromText(w[1..], rest, cur + [w[0]]);
      assert cur + [w[0]] + w[1..] == cur + w;
    } else {
      assert w + rest == rest && cur + w == cur;
    }
  }

  /** `"\n".join(ls).splitlines() == ls` for lines without boundaries, all non-empty. */
  lemma {:induction false} SplitJoinLines(ls: seq<string>)
    requires forall i :: 0 <= i < |ls| ==> ls[i] != [] && NoLineBreak(ls[i])
    ensures SplitLines(JoinLines(ls)) == ls
  {
    if |ls| == 1 {
      var w := ls[0];
      assert JoinLines(ls) == w && ls == [w];
      LinesFromText(w, [], []);
      assert w + [] == w && [] + w == w;
      assert LinesFrom([], w) == [w];
    } else if |ls| > 1 {
      var tail := JoinLines(ls[1..]);
      assert JoinLines(ls) == ls[0] + ("\n" + tail);
      LinesFromText(ls[0], "\n" + tail, []);
      assert ("\n" + tail)[1..] == tail;
      assert [] + ls[0] == ls[0];
      SplitJoinLines(ls[1..]);
    }
  }
}
