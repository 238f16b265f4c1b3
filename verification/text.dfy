/** The string operations `install_tool` and the catalog views rely on:
    `str.endswith`, `str.lower`, `str.replace` of one character and the
    argument-less `str.split`. */
module Text {

  /** `s.endswith(suffix)`. */
  predicate EndsWith(s: string, suffix: string) {
    |suffix| <= |s| && s[|s| - |suffix|..] == suffix
  }

  /** Lower-casing of one character, restricted to ASCII letters. */
  function LowerChar(c: char): char {
    if 'A' <= c <= 'Z' then (c as int + 32) as char else c
  }

  /** `s.lower()` for ASCII letters; every other character is kept. */
  function Lower(s: string): string {
    seq(|s|, i requires 0 <= i < |s| => LowerChar(s[i]))
  }

  /** `w` is made of lower-case ASCII letters only. */
  predicate IsLowerWord(w: string) {
    forall i :: 0 <= i < |w| ==> 'a' <= w[i] <= 'z'
  }

  /** `s` spells the lower-case word `w` with each letter in either case:
      the upper-case form of an ASCII letter sits 32 code points below it. */
  predicate EqualsIgnoringCase(s: string, w: string) {
    |s| == |w| && forall i :: 0 <= i < |s| ==> s[i] == w[i] || s[i] as int + 32 == w[i] as int
  }

  /** Lower-casing `s` gives the lower-case word `w` exactly when `s` is `w`
      written with any mix of upper- and lower-case letters. */
  lemma LowerMatches(s: string, w: string)
    requires IsLowerWord(w)
    ensures Lower(s) == w <==> EqualsIgnoringCase(s, w)
  {
    if EqualsIgnoringCase(s, w) {
      forall i | 0 <= i < |s| ensures Lower(s)[i] == w[i] {
        if s[i] as int + 32 == w[i] as int {
          assert 'A' <= s[i] <= 'Z';
        }
      }
    }
  }

  /** `s.replace(from, to)` for single characters. */
  function ReplaceChar(s: string, from: char, to: char): (r: string)
    ensures |r| == |s|
    ensures forall i :: 0 <= i < |s| ==> r[i] == (if s[i] == from then to else s[i])
    decreases |s|
  {
    if s == [] then []
    else [if s[0] == from then to else s[0]] + ReplaceChar(s[1..], from, to)
  }

  /** The characters Python's argument-less `str.split` treats as separators
      (`str.isspace`), by code point. */
  predicate IsSpace(c: char) {
    var n := c as int;
    || n == 0x20 || 0x09 <= n <= 0x0D || 0x1C <= n <= 0x1F
    || n == 0x85 || n == 0xA0 || n == 0x1680 || 0x2000 <= n <= 0x200A
    || n == 0x2028 || n == 0x2029 || n == 0x202F || n == 0x205F || n == 0x3000
  }

  /** A token `str.split` can produce: non-empty, no whitespace. */
  predicate IsWord(w: string) {
    w != [] && forall i :: 0 <= i < |w| ==> !IsSpace(w[i])
  }

  /** Length of the leading run of non-whitespace characters. */
  function WordLen(s: string): (n: nat)
    ensures n <= |s|
    ensures forall i :: 0 <= i < n ==> !IsSpace(s[i])
    ensures n == |s| || IsSpace(s[n])
    decreases |s|
  {
    if s == [] || IsSpace(s[0]) then 0 else 1 + WordLen(s[1..])
  }

  /** `s.split()`: the maximal whitespace-free runs of `s`, in order. */
  function Words(s: string): (ws: seq<string>)
    ensures forall i :: 0 <= i < |ws| ==> IsWord(ws[i])
    decreases |s|
  {
    if s == [] then []
    else if IsSpace(s[0]) then Words(s[1..])
    else
      var n := WordLen(s);
      [s[..n]] + Words(s[n..])
  }

  /** `" ".join(ws)`. */
  function JoinWords(ws: seq<string>): string
    decreases |ws|
  {
    if ws == [] then []
    else if |ws| == 1 then ws[0]
    else ws[0] + " " + JoinWords(ws[1..])
  }

  /** `s` with every whitespace character removed. */
  function Squeeze(s: string): string
    decreases |s|
  {
    if s == [] then []
    else (if IsSpace(s[0]) then [] else [s[0]]) + Squeeze(s[1..])
  }

  /** `"".join(ws)`. */
  function Concat(ws: seq<string>): string
    decreases |ws|
  {
    if ws == [] then [] else ws[0] + Concat(ws[1..])
  }

  lemma {:induction false} SqueezeAppend(a: string, b: string)
    ensures Squeeze(a + b) == Squeeze(a) + Squeeze(b)
    decreases |a|
  {
    if a == [] {
      assert a + b == b;
    } else {
      assert (a + b)[1..] == a[1..] + b;
      SqueezeAppend(a[1..], b);
    }
  }

  lemma {:induction false} SqueezeWord(w: string)
    requires forall i :: 0 <= i < |w| ==> !IsSpace(w[i])
    ensures Squeeze(w) == w
    decreases |w|
  {
    if w != [] {
      SqueezeWord(w[1..]);
    }
  }

  /** Splitting loses only whitespace: the tokens, glued together, are the
      non-whitespace characters of `s` in their original order. */
  lemma {:induction false} WordsKeepContent(s: string)
    ensures Concat(Words(s)) == Squeeze(s)
    decreases |s|
  {
    if s == [] {
    } else if IsSpace(s[0]) {
      WordsKeepContent(s[1..]);
    } else {
      var n := WordLen(s);
      assert s == s[..n] + s[n..];
      WordsKeepContent(s[n..]);
      SqueezeAppend(s[..n], s[n..]);
      SqueezeWord(s[..n]);
      assert Words(s) == [s[..n]] + Words(s[n..]);
    }
  }

  /** A word followed by nothing or by whitespace splits off as one token. */
  lemma WordsOfWordThen(w: string, rest: string)
    requires IsWord(w)
    requires rest == [] || IsSpace(rest[0])
    ensures Words(w + rest) == [w] + Words(rest)
  {
    var s := w + rest;
    var n := WordLen(s);
    assert forall i :: 0 <= i < |w| ==> s[i] == w[i];
    assert rest != [] ==> s[|w|] == rest[0];
    assert s[..n] == w && s[n..] == rest;
  }

  /** Splitting undoes `" ".join` on well-formed tokens: the tokens come back
      exactly, in order. */
  lemma {:induction false} WordsOfJoin(ws: seq<string>)
    requires forall i :: 0 <= i < |ws| ==> IsWord(ws[i])
    ensures Words(JoinWords(ws)) == ws
    decreases |ws|
  {
    if ws == [] {
    } else if |ws| == 1 {
      WordsOfWordThen(ws[0], []);
      assert ws[0] + [] == ws[0];
    } else {
      var rest := JoinWords(ws[1..]);
      WordsOfJoin(ws[1..]);
      assert ws[0] + " " + rest == ws[0] + (" " + rest);
      WordsOfWordThen(ws[0], " " + rest);
      assert (" " + rest)[1..] == rest;
      assert ws == [ws[0]] + ws[1..];
    }
  }

  /** A run of whitespace only (possibly empty). */
  predicate IsBlank(s: string) {
    forall i :: 0 <= i < |s| ==> IsSpace(s[i])
  }

  /** Leading whitespace produces no token: `split` skips it whole. */
  lemma {:induction false} WordsSkipBlank(sp: string, rest: string)
    requires IsBlank(sp)
    ensures Words(sp + rest) == Words(rest)
    decreases |sp|
  {
    if sp == [] {
      assert sp + rest == rest;
    } else {
      assert (sp + rest)[0] == sp[0];
      assert (sp + rest)[1..] == sp[1..] + rest;
      WordsSkipBlank(sp[1..], rest);
    }
  }

  /** Tokens laid out with the given whitespace runs around and between them:
      `gaps[0] + ws[0] + gaps[1] + ... + ws[k-1] + gaps[k]`. */
  function Spaced(ws: seq<string>, gaps: seq<string>): string
    requires |gaps| == |ws| + 1
    decreases |ws|
  {
    if ws == [] then gaps[0] else gaps[0] + ws[0] + Spaced(ws[1..], gaps[1..])
  }

  /** `split` cuts exactly at whitespace runs: tokens separated by any
      non-empty runs of whitespace, with any leading and trailing whitespace,
      come back exactly, in order. */
  lemma {:induction false} WordsOfSpaced(ws: seq<string>, gaps: seq<string>)
    requires |gaps| == |ws| + 1
    requires forall i :: 0 <= i < |ws| ==> IsWord(ws[i])
    requires forall i :: 0 <= i < |gaps| ==> IsBlank(gaps[i])
    requires forall i :: 0 < i < |ws| ==> gaps[i] != []
    ensures Words(Spaced(ws, gaps)) == ws
    decreases |ws|
  {
    if ws == [] {
      WordsSkipBlank(gaps[0], []);
      assert gaps[0] + [] == gaps[0];
    } else {
      var rest := Spaced(ws[1..], gaps[1..]);
      WordsOfSpaced(ws[1..], gaps[1..]);
      if |ws| == 1 {
        assert rest == gaps[1];
      } else {
        assert rest == gaps[1] + ws[1] + Spaced(ws[2..], gaps[2..]);
        assert rest[0] == gaps[1][0];
      }
      assert Spaced(ws, gaps) == gaps[0] + (ws[0] + rest);
      WordsSkipBlank(gaps[0], ws[0] + rest);
      WordsOfWordThen(ws[0], rest);
      assert ws == [ws[0]] + ws[1..];
    }
  }

  /** Three tokens joined by single spaces split back into those tokens. */
  lemma WordsOfThree(a: string, b: string, c: string)
    requires IsWord(a) && IsWord(b) && IsWord(c)
    ensures Words(a + " " + b + " " + c) == [a, b, c]
  {
    var ws := [a, b, c];
    assert ws[1..][1..] == [c];
    assert JoinWords(ws[1..]) == b + " " + c;
    assert JoinWords(ws) == a + " " + (b + " " + c);
    assert a + " " + (b + " " + c) == a + " " + b + " " + c;
    WordsOfJoin(ws);
  }

  /** Appending on the left keeps a suffix. */
  lemma EndsWithAppend(x: string, f: string, suffix: string)
    requires EndsWith(f, suffix)
    ensures EndsWith(x + f, suffix)
  {
    assert (x + f)[|x + f| - |suffix|..] == f[|f| - |suffix|..];
  }

  lemma EndsWithTrans(s: string, t: string, suffix: string)
    requires EndsWith(s, t) && EndsWith(t, suffix)
    ensures EndsWith(s, suffix)
  {
    assert s[|s| - |suffix|..] == s[|s| - |t|..][|t| - |suffix|..];
  }

  /** Of two suffixes of one string, the longer ends with the shorter. */
  lemma EndsWithShorter(s: string, t: string, suffix: string)
    requires EndsWith(s, t) && EndsWith(s, suffix) && |suffix| <= |t|
    ensures EndsWith(t, suffix)
  {
    assert t[|t| - |suffix|..] == s[|s| - |suffix|..];
  }
}
