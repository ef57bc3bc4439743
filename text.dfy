/** The JavaScript string operations the pages rely on: `toLowerCase`,
    `includes`, `indexOf`, `replace` with a string pattern, `split` on one
    character, `join`, `trim` and `String(n)` for integers.  Case folding and
    white space are ASCII only. */
module Text {
  import opened Seqs

  // ---------------------------------------------------------------------
  // Case folding

  function LowerChar(c: char): char
  {
    if 'A' <= c <= 'Z' then (c as int + 32) as char else c
  }

  /** `s.toLowerCase()` restricted to ASCII letters. */
  function Lower(s: string): (r: string)
    ensures |r| == |s|
    ensures forall i :: 0 <= i < |s| ==> r[i] == LowerChar(s[i])
  {
    if s == [] then [] else [LowerChar(s[0])] + Lower(s[1..])
  }

  /** Folding twice is folding once; folded text has no upper-case letter. */
  lemma LowerIdempotent(s: string)
    ensures Lower(Lower(s)) == Lower(s)
    ensures forall i :: 0 <= i < |s| ==> !('A' <= Lower(s)[i] <= 'Z')
  {
  }

  // ---------------------------------------------------------------------
  // Searching

  /** `t` occurs in `s` starting at index `j`. */
  predicate OccursAt(s: string, t: string, j: int)
  {
    0 <= j && j + |t| <= |s| && s[j..j + |t|] == t
  }

  /** `s.indexOf(t)`, with None for -1. */
  function IndexOf(s: string, t: string): (r: Option<nat>)
    ensures r.Some? ==> OccursAt(s, t, r.value)
    ensures r.Some? ==> forall j :: 0 <= j < r.value ==> !OccursAt(s, t, j)
    ensures r.None? ==> forall j :: 0 <= j <= |s| ==> !OccursAt(s, t, j)
    decreases |s|
  {
    if |t| <= |s| && s[..|t|] == t then Some(0)
    else if s == [] then None
    else
      var rest := IndexOf(s[1..], t);
      assert forall j :: 1 <= j <= |s| ==> (OccursAt(s, t, j) <==> OccursAt(s[1..], t, j - 1)) by {
        forall j | 1 <= j <= |s| ensures OccursAt(s, t, j) <==> OccursAt(s[1..], t, j - 1) {
          OccursShift(s, t, j);
        }
      }
      match rest
      case None => None
      case Some(i) => Some(i + 1)
  }

  /** An occurrence past the first character is one in the tail. */
  lemma OccursShift(s: string, t: string, j: int)
    requires 1 <= j <= |s|
    ensures OccursAt(s, t, j) <==> OccursAt(s[1..], t, j - 1)
  {
    if j + |t| <= |s| {
      var a, b := s[j..j + |t|], s[1..][j - 1..j - 1 + |t|];
      assert |a| == |b|;
      forall i | 0 <= i < |t| ensures a[i] == b[i] {
        assert a[i] == s[j + i];
        assert b[i] == s[1..][j - 1 + i];
      }
      assert a == b;
    }
  }

  /** `s.includes(t)` */
  predicate Contains(s: string, t: string)
  {
    IndexOf(s, t).Some?
  }

  /** `includes` says exactly whether the pattern occurs somewhere. */
  lemma ContainsIff(s: string, t: string)
    ensures Contains(s, t) <==> exists j :: OccursAt(s, t, j)
  {
  }

  /** The replacement text as `replace` inserts it (GetSubstitution of
      ECMAScript, section 22.1.3.19.1 of ECMA-262, for a string pattern,
      which has no capture groups): "$$" stands for "$", "$&" for the
      matched text, "$`" for the text before the match and "$'" for the text
      after it; any other character, and a "$" before anything else, is
      copied as it is. */
  function Substitution(rep: string, before: string, matched: string, after: string): string
    decreases |rep|
  {
    if rep == [] then []
    else if |rep| >= 2 && rep[0] == '$' && rep[1] == '$' then "$" + Substitution(rep[2..], before, matched, after)
    else if |rep| >= 2 && rep[0] == '$' && rep[1] == '&' then matched + Substitution(rep[2..], before, matched, after)
    else if |rep| >= 2 && rep[0] == '$' && rep[1] == '`' then before + Substitution(rep[2..], before, matched, after)
    else if |rep| >= 2 && rep[0] == '$' && rep[1] == '\'' then after + Substitution(rep[2..], before, matched, after)
    else [rep[0]] + Substitution(rep[1..], before, matched, after)
  }

  /** A replacement text without "$" is inserted as it is. */
  lemma {:induction false} SubstitutionPlain(rep: string, before: string, matched: string, after: string)
    requires '$' !in rep
    ensures Substitution(rep, before, matched, after) == rep
    decreases |rep|
  {
    if rep != [] {
      assert rep[0] != '$';
      assert '$' !in rep[1..] by {
        forall i | 0 <= i < |rep[1..]| ensures rep[1..][i] != '$' {
          assert rep[1..][i] == rep[i + 1];
        }
      }
      SubstitutionPlain(rep[1..], before, matched, after);
      assert rep == [rep[0]] + rep[1..];
    }
  }

  /** The four patterns, and a "$" that starts none of them. */
  lemma SubstitutionPatterns(before: string, matched: string, after: string)
    ensures Substitution("$$", before, matched, after) == "$"
    ensures Substitution("$&", before, matched, after) == matched
    ensures Substitution("$`", before, matched, after) == before
    ensures Substitution("$'", before, matched, after) == after
    ensures Substitution("$1", before, matched, after) == "$1"
  {
    assert "$$"[2..] == [] && "$&"[2..] == [] && "$`"[2..] == [] && "$'"[2..] == [];
    assert "$1"[1..] == "1" && "1"[1..] == [];
  }

  /** `s.replace(pat, rep)` with a string pattern: only the first occurrence
      is replaced, by the substitution of `rep`, and nothing changes when
      there is none. */
  function ReplaceFirst(s: string, pat: string, rep: string): string
  {
    match IndexOf(s, pat)
    case None => s
    case Some(i) => s[..i] + Substitution(rep, s[..i], pat, s[i + |pat|..]) + s[i + |pat|..]
  }

  /** When the pattern does not occur before the end of `a`, replacing in
      `a + pat + b` puts the substitution of `rep` exactly where `pat` was. */
  lemma {:induction false} ReplaceFirstAt(a: string, pat: string, b: string, rep: string)
    requires forall j :: 0 <= j < |a| ==> !OccursAt(a + pat + b, pat, j)
    ensures ReplaceFirst(a + pat + b, pat, rep) == a + Substitution(rep, a, pat, b) + b
  {
    var s := a + pat + b;
    assert s[|a|..|a| + |pat|] == pat;
    assert OccursAt(s, pat, |a|);
    var i := IndexOf(s, pat).value;
    assert i == |a|;
    assert s[..i] == a;
    assert s[i + |pat|..] == b;
  }

  /** A pattern whose first character does not appear in `a` cannot start
      inside `a`. */
  lemma NoOccurrenceBefore(a: string, pat: string, b: string)
    requires pat != [] && pat[0] !in a
    ensures forall j :: 0 <= j < |a| ==> !OccursAt(a + pat + b, pat, j)
  {
    var s := a + pat + b;
    forall j | 0 <= j < |a| ensures !OccursAt(s, pat, j) {
      assert s[j] == a[j];
      OccursAtHead(s, pat, j);
    }
  }

  lemma OccursAtHead(s: string, t: string, j: int)
    ensures OccursAt(s, t, j) && t != [] ==> s[j] == t[0]
  {
    if OccursAt(s, t, j) && t != [] {
      assert s[j..j + |t|][0] == s[j];
    }
  }

  // ---------------------------------------------------------------------
  // Splitting and joining

  /** `s.split(c)`; like JavaScript, the empty string splits into `[""]`. */
  function Split(s: string, c: char): (r: seq<string>)
    ensures |r| >= 1
    ensures forall i :: 0 <= i < |r| ==> c !in r[i]
  {
    if s == [] then [""]
    else
      var rest := Split(s[1..], c);
      if s[0] == c then [""] + rest else [[s[0]] + rest[0]] + rest[1..]
  }

  /** `xs.join(sep)` */
  function Join(xs: seq<string>, sep: string): string
  {
    if |xs| == 0 then ""
    else if |xs| == 1 then xs[0]
    else xs[0] + sep + Join(xs[1..], sep)
  }

  /** A join of pieces without `c`, by a separator without `c`, has no `c`. */
  lemma {:induction false} JoinWithout(xs: seq<string>, sep: string, c: char)
    requires forall i :: 0 <= i < |xs| ==> c !in xs[i]
    requires c !in sep
    ensures c !in Join(xs, sep)
  {
    if |xs| > 1 {
      JoinWithout(xs[1..], sep, c);
    }
  }

  /** Joining the pieces of a split with the separator rebuilds the text. */
  lemma {:induction false} JoinSplit(s: string, c: char)
    ensures Join(Split(s, c), [c]) == s
  {
    if s != [] {
      var rest := Split(s[1..], c);
      JoinSplit(s[1..], c);
      if s[0] == c {
        assert Split(s, c) == [""] + rest;
        assert ([""] + rest)[1..] == rest;
      } else {
        var r := [[s[0]] + rest[0]] + rest[1..];
        assert Split(s, c) == r;
        if |rest| == 1 {
          assert Join(rest, [c]) == rest[0];
        } else {
          assert Join(rest, [c]) == rest[0] + [c] + Join(rest[1..], [c]);
          assert r[1..] == rest[1..];
        }
      }
    }
  }

  /** Text without the separator is a single piece. */
  lemma {:induction false} SplitWithout(s: string, c: char)
    requires c !in s
    ensures Split(s, c) == [s]
  {
    if s != [] {
      SplitWithout(s[1..], c);
      assert [s[0]] + s[1..] == s;
    }
  }

  /** A separator after a separator-free prefix ends the first piece. */
  lemma {:induction false} SplitAfter(a: string, c: char, b: string)
    requires c !in a
    ensures Split(a + [c] + b, c) == [a] + Split(b, c)
  {
    if a == [] {
      assert a + [c] + b == [c] + b;
      assert ([c] + b)[1..] == b;
    } else {
      assert (a + [c] + b)[1..] == a[1..] + [c] + b;
      assert (a + [c] + b)[0] == a[0];
      SplitAfter(a[1..], c, b);
      assert [a[0]] + a[1..] == a;
    }
  }

  /** Splitting a join of separator-free pieces gives the pieces back. */
  lemma {:induction false} SplitJoin(xs: seq<string>, c: char)
    requires |xs| >= 1
    requires forall i :: 0 <= i < |xs| ==> c !in xs[i]
    ensures Split(Join(xs, [c]), c) == xs
  {
    if |xs| == 1 {
      SplitWithout(xs[0], c);
    } else {
      SplitJoin(xs[1..], c);
      SplitAfter(xs[0], c, Join(xs[1..], [c]));
      assert xs == [xs[0]] + xs[1..];
    }
  }

  /** `s.split(c)[0]`: the text before the first `c`, or all of `s`. */
  function Before(s: string, c: char): (r: string)
    ensures c !in r
    ensures |r| <= |s| && r == s[..|r|]
    ensures |r| == |s| || s[|r|] == c
  {
    SplitHead(s, c);
    Split(s, c)[0]
  }

  lemma {:induction false} SplitHead(s: string, c: char)
    ensures |Split(s, c)[0]| <= |s|
    ensures Split(s, c)[0] == s[..|Split(s, c)[0]|]
    ensures |Split(s, c)[0]| == |s| || s[|Split(s, c)[0]|] == c
  {
    if s != [] {
      SplitHead(s[1..], c);
    }
  }

  // ---------------------------------------------------------------------
  // Trimming

  /** White space as `trim` removes it (the ASCII part). */
  predicate IsSpace(c: char)
  {
    c == ' ' || c == '\t' || c == '\n' || c == '\r' || c == '\U{000B}' || c == '\U{000C}'
  }

  predicate IsTrimmed(s: string)
  {
    s == [] || (!IsSpace(s[0]) && !IsSpace(s[|s| - 1]))
  }

  function TrimStart(s: string): (r: string)
    ensures r == [] || !IsSpace(r[0])
    ensures |r| <= |s| && r == s[|s| - |r|..]
    ensures forall i :: 0 <= i < |s| - |r| ==> IsSpace(s[i])
  {
    if s != [] && IsSpace(s[0]) then TrimStart(s[1..]) else s
  }

  function TrimEnd(s: string): (r: string)
    ensures r == [] || !IsSpace(r[|r| - 1])
    ensures |r| <= |s| && r == s[..|r|]
    ensures forall i :: |r| <= i < |s| ==> IsSpace(s[i])
  {
    if s != [] && IsSpace(s[|s| - 1]) then TrimEnd(s[..|s| - 1]) else s
  }

  /** `s.trim()`: the result is a piece of `s` with no white space at either
      end, and a trimmed string is left as it is. */
  function Trim(s: string): (r: string)
    ensures IsTrimmed(r)
    ensures IsTrimmed(s) ==> r == s
  {
    TrimEnd(TrimStart(s))
  }

  /** What `trim` returns is a contiguous piece of its input, at offset `a`. */
  lemma TrimInfix(s: string) returns (a: nat)
    ensures a + |Trim(s)| <= |s| && Trim(s) == s[a..a + |Trim(s)|]
  {
    var t := TrimStart(s);
    a := |s| - |t|;
    assert Trim(s) == t[..|Trim(s)|];
  }

  /** Spaces in front do not survive `trim`. */
  lemma TrimLeadingSpace(s: string)
    ensures Trim(" " + s) == Trim(s)
  {
    assert (" " + s)[1..] == s;
  }

  /** Nothing `trim` returns contains a character `s` lacks. */
  lemma TrimKeepsOut(s: string, c: char)
    requires c !in s
    ensures c !in Trim(s)
  {
    var r := Trim(s);
    var a := TrimInfix(s);
    forall i | 0 <= i < |r| ensures r[i] in s {
      assert r[i] == s[a + i];
    }
  }

  // ---------------------------------------------------------------------
  // Decimal numerals

  predicate IsDigit(c: char)
  {
    '0' <= c <= '9'
  }

  function DigitChar(d: int): (c: char)
    requires 0 <= d < 10
    ensures IsDigit(c) && c as int - '0' as int == d
  {
    (d + '0' as int) as char
  }

  /** `String(n)` for n >= 0: the shortest decimal numeral of n. */
  function NatToString(n: nat): (r: string)
    ensures |r| >= 1
    ensures forall i :: 0 <= i < |r| ==> IsDigit(r[i])
    ensures r[0] == '0' ==> n == 0 && r == "0"
    decreases n
  {
    if n < 10 then [DigitChar(n)] else NatToString(n / 10) + [DigitChar(n % 10)]
  }

  /** `String(n)` for an integer n. */
  function IntToString(n: int): (r: string)
    ensures r != []
    ensures forall i :: 0 <= i < |r| ==> IsDigit(r[i]) || (i == 0 && r[i] == '-')
  {
    if n < 0 then "-" + NatToString(-n) else NatToString(n)
  }

  /** The value of a string of decimal digits. */
  function DecimalValue(s: string): (v: int)
    requires forall i :: 0 <= i < |s| ==> IsDigit(s[i])
    ensures v >= 0
  {
    if s == [] then 0
    else
      assert IsDigit(s[|s| - 1]);
      DecimalValue(s[..|s| - 1]) * 10 + (s[|s| - 1] as int - '0' as int)
  }

  lemma {:induction false} NatToStringValue(n: nat)
    ensures DecimalValue(NatToString(n)) == n
    decreases n
  {
    if n >= 10 {
      NatToStringValue(n / 10);
      var s := NatToString(n / 10) + [DigitChar(n % 10)];
      assert s[..|s| - 1] == NatToString(n / 10);
    }
  }

  /** Reads back what IntToString writes: an optional minus, then digits. */
  function ParseInt(s: string): Option<int>
  {
    if |s| >= 2 && s[0] == '-' && forall i :: 1 <= i < |s| ==> IsDigit(s[i]) then
      Some(-DecimalValue(s[1..]))
    else if |s| >= 1 && forall i :: 0 <= i < |s| ==> IsDigit(s[i]) then
      Some(DecimalValue(s))
    else None
  }

  /** The decimal text of an integer determines it. */
  lemma IntToStringRoundTrip(n: int)
    ensures ParseInt(IntToString(n)) == Some(n)
  {
    if n < 0 {
      NatToStringValue(-n);
      assert ("-" + NatToString(-n))[1..] == NatToString(-n);
    } else {
      NatToStringValue(n);
    }
  }

  /** The first non-empty text among the candidates, else the fallback: a
      chain `a || b || … || fallback` over strings. */
  function FirstNonEmpty(candidates: seq<string>, fallback: string): (r: string)
    ensures (forall i :: 0 <= i < |candidates| ==> candidates[i] == "") ==> r == fallback
    ensures forall i :: 0 <= i < |candidates| ==> (candidates[i] != "" && (forall j :: 0 <= j < i ==> candidates[j] == "") ==> r == candidates[i])
  {
    if candidates == [] then fallback
    else if candidates[0] != "" then candidates[0]
    else FirstNonEmpty(candidates[1..], fallback)
  }
}
