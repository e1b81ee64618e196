/** The Python string operations the scripts rely on: strip, split, `in`, join, lower,
    replace, slicing, f-string formatting of integers and int() parsing. */
module Text {

  /** Python's str.isspace: the characters strip() removes. */
  predicate IsSpace(c: char) {
    ('\t' <= c <= '\r') || ('\U{001C}' <= c <= ' ') || c == '\U{0085}' || c == '\U{00A0}'
    || c == '\U{1680}' || ('\U{2000}' <= c <= '\U{200A}') || c == '\U{2028}' || c == '\U{2029}'
    || c == '\U{202F}' || c == '\U{205F}' || c == '\U{3000}'
  }

  /** Every character of s is whitespace. */
  predicate Blank(s: string) {
    forall k :: 0 <= k < |s| ==> IsSpace(s[k])
  }

  /** Text that neither starts nor ends with whitespace. */
  predicate Trimmed(s: string) {
    s == [] || (!IsSpace(s[0]) && !IsSpace(s[|s| - 1]))
  }

  /** str.strip(): drops leading whitespace, then trailing whitespace. */
  function Strip(s: string): string
    decreases |s|
  {
    if s != [] && IsSpace(s[0]) then Strip(s[1..])
    else if s != [] && IsSpace(s[|s| - 1]) then Strip(s[..|s| - 1])
    else s
  }

  /** Strip leaves trimmed text: no whitespace at either end. */
  lemma {:induction false} StripTrimmed(s: string)
    ensures Trimmed(Strip(s))
    decreases |s|
  {
    if s != [] && IsSpace(s[0]) {
      StripTrimmed(s[1..]);
    } else if s != [] && IsSpace(s[|s| - 1]) {
      StripTrimmed(s[..|s| - 1]);
    }
  }

  /** Trimmed text is its own strip. */
  lemma StripUnchanged(s: string)
    requires Trimmed(s)
    ensures Strip(s) == s
  {
  }

  /** [p.strip() for p in parts]. */
  function StripEach(parts: seq<string>): (r: seq<string>)
    ensures |r| == |parts|
  {
    seq(|parts|, i requires 0 <= i < |parts| => Strip(parts[i]))
  }

  /** Stripping twice is stripping once. */
  lemma StripIdempotent(s: string)
    ensures Strip(Strip(s)) == Strip(s)
  {
    StripTrimmed(s);
  }

  /** Strip removes only whitespace: a non-space character survives it. */
  lemma {:induction false} StripKeeps(s: string, c: char)
    requires !IsSpace(c)
    ensures c in Strip(s) <==> c in s
    decreases |s|
  {
    if s != [] && IsSpace(s[0]) {
      StripKeeps(s[1..], c);
      assert s == [s[0]] + s[1..];
    } else if s != [] && IsSpace(s[|s| - 1]) {
      StripKeeps(s[..|s| - 1], c);
      assert s == s[..|s| - 1] + [s[|s| - 1]];
    }
  }

  /** Strip yields "" exactly for blank text. */
  lemma {:induction false} StripBlank(s: string)
    ensures Strip(s) == [] <==> Blank(s)
    decreases |s|
  {
    if s != [] && IsSpace(s[0]) {
      StripBlank(s[1..]);
      assert Blank(s) <==> Blank(s[1..]) by {
        if Blank(s[1..]) {
          forall k | 0 <= k < |s| ensures IsSpace(s[k]) {
            if k > 0 { assert s[k] == s[1..][k - 1]; }
          }
        }
      }
    } else if s != [] && IsSpace(s[|s| - 1]) {
      StripBlank(s[..|s| - 1]);
      assert Blank(s) <==> Blank(s[..|s| - 1]) by {
        if Blank(s[..|s| - 1]) {
          forall k | 0 <= k < |s| ensures IsSpace(s[k]) {
            if k < |s| - 1 { assert s[k] == s[..|s| - 1][k]; }
          }
        }
      }
    }
  }

  /** Text with non-space ends followed by trailing whitespace (a line read with its
      newline) strips to the text. */
  lemma {:induction false} StripTrailing(s: string, t: string)
    requires s != [] && Trimmed(s)
    requires Blank(t)
    ensures Strip(s + t) == s
    decreases |t|
  {
    var u := s + t;
    assert u[0] == s[0];
    if t != [] {
      assert u[..|u| - 1] == s + t[..|t| - 1];
      assert u[|u| - 1] == t[|t| - 1];
      StripTrailing(s, t[..|t| - 1]);
    } else {
      assert u == s;
    }
  }

  /** `sep` occurs somewhere in `s`: Python's `sep in s`. */
  predicate Contains(s: string, sep: string)
    decreases |s|
  {
    |sep| <= |s| && (s[..|sep|] == sep || Contains(s[1..], sep))
  }

  /** For a single character, `in` on strings is sequence membership. */
  lemma {:induction false} ContainsChar(s: string, c: char)
    ensures Contains(s, [c]) <==> c in s
    decreases |s|
  {
    if s != [] {
      ContainsChar(s[1..], c);
      assert s == [s[0]] + s[1..];
    }
  }

  /** Python's sep.join(parts). */
  function Join(parts: seq<string>, sep: string): string
    decreases |parts|
  {
    if parts == [] then []
    else if |parts| == 1 then parts[0]
    else parts[0] + sep + Join(parts[1..], sep)
  }

  /** str.split(sep) for a non-empty separator: the pieces between the occurrences of
      `sep`, found left to right without overlap. */
  function Split(s: string, sep: string): (parts: seq<string>)
    requires sep != []
    ensures |parts| >= 1
    decreases |s|
  {
    if |sep| <= |s| && s[..|sep|] == sep then [""] + Split(s[|sep|..], sep)
    else if s == [] then [""]
    else
      var rest := Split(s[1..], sep);
      [[s[0]] + rest[0]] + rest[1..]
  }

  lemma JoinCons(a: string, rest: seq<string>, sep: string)
    requires rest != []
    ensures Join([a] + rest, sep) == a + sep + Join(rest, sep)
  {
    assert ([a] + rest)[1..] == rest;
  }

  /** Putting a character in front of the first piece puts it in front of the join. */
  lemma JoinHeadCons(c: char, rest: seq<string>, sep: string)
    requires rest != []
    ensures Join([[c] + rest[0]] + rest[1..], sep) == [c] + Join(rest, sep)
  {
    if |rest| > 1 {
      JoinCons([c] + rest[0], rest[1..], sep);
      JoinCons(rest[0], rest[1..], sep);
      assert [rest[0]] + rest[1..] == rest;
    }
  }

  /** The two ways Split peels off its first character or separator. */
  lemma SplitUnfold(s: string, sep: string)
    requires sep != []
    ensures |sep| <= |s| && s[..|sep|] == sep ==>
              s == sep + s[|sep|..] && Split(s, sep) == [""] + Split(s[|sep|..], sep)
    ensures !(|sep| <= |s| && s[..|sep|] == sep) && s != [] ==>
              s == [s[0]] + s[1..] &&
              Split(s, sep) == [[s[0]] + Split(s[1..], sep)[0]] + Split(s[1..], sep)[1..]
  {
  }

  /** Joining the pieces with the separator gives back the text. */
  lemma {:induction false} SplitJoin(s: string, sep: string)
    requires sep != []
    ensures Join(Split(s, sep), sep) == s
    decreases |s|
  {
    SplitUnfold(s, sep);
    if |sep| <= |s| && s[..|sep|] == sep {
      var tail := s[|sep|..];
      SplitJoin(tail, sep);
      JoinCons("", Split(tail, sep), sep);
    } else if s != [] {
      var tail := s[1..];
      SplitJoin(tail, sep);
      JoinHeadCons(s[0], Split(tail, sep), sep);
    }
  }

  /** The first piece is a prefix of the text. */
  lemma {:induction false} SplitHeadPrefix(s: string, sep: string)
    requires sep != []
    ensures Split(s, sep)[0] <= s
    decreases |s|
  {
    if !(|sep| <= |s| && s[..|sep|] == sep) && s != [] {
      SplitHeadPrefix(s[1..], sep);
    }
  }

  /** A prefix of text that does not start with `sep`, long enough to hold it, does not
      start with it either. */
  lemma PrefixNoStart(p: string, s: string, sep: string)
    requires p <= s && |sep| <= |p|
    requires s[..|sep|] != sep
    ensures p[..|sep|] != sep
  {
    assert p[..|sep|] == s[..|sep|];
  }

  /** No piece contains the separator. */
  lemma {:induction false} SplitPiecesFree(s: string, sep: string)
    requires sep != []
    ensures forall p :: p in Split(s, sep) ==> !Contains(p, sep)
    decreases |s|
  {
    var parts := Split(s, sep);
    if |sep| <= |s| && s[..|sep|] == sep {
      SplitPiecesFree(s[|sep|..], sep);
      assert !Contains("", sep);
    } else if s != [] {
      var rest := Split(s[1..], sep);
      SplitPiecesFree(s[1..], sep);
      SplitHeadPrefix(s[1..], sep);
      var head := [s[0]] + rest[0];
      assert head[1..] == rest[0];
      assert rest[0] in rest;
      if |sep| <= |head| {
        assert head <= s;
        PrefixNoStart(head, s, sep);
      }
      forall p | p in parts ensures !Contains(p, sep) {
        if p != head {
          assert p in rest[1..];
          assert p in rest;
        }
      }
    } else {
      assert !Contains("", sep);
    }
  }

  /** There is a single piece exactly when the separator does not occur. */
  lemma {:induction false} SplitSingle(s: string, sep: string)
    requires sep != []
    ensures |Split(s, sep)| == 1 <==> !Contains(s, sep)
    ensures !Contains(s, sep) ==> Split(s, sep) == [s]
    decreases |s|
  {
    if |sep| <= |s| && s[..|sep|] == sep {
      assert Contains(s, sep);
    } else if s != [] {
      SplitSingle(s[1..], sep);
      assert s == [s[0]] + s[1..];
    }
  }

  /** Splitting text without the separator character gives the text itself. */
  lemma SplitAbsent(s: string, c: char)
    requires c !in s
    ensures Split(s, [c]) == [s]
  {
    ContainsChar(s, c);
    SplitSingle(s, [c]);
  }

  /** Splitting at the first occurrence of a separator character. */
  lemma {:induction false} SplitAt(a: string, c: char, rest: string)
    requires c !in a
    ensures Split(a + [c] + rest, [c]) == [a] + Split(rest, [c])
    decreases |a|
  {
    var s := a + [c] + rest;
    if a == [] {
      assert s[..1] == [c] && s[1..] == rest;
    } else {
      assert s[..1] == [a[0]];
      assert s[1..] == a[1..] + [c] + rest;
      SplitAt(a[1..], c, rest);
      assert a == [a[0]] + a[1..];
    }
  }

  /** Text that holds `sep` holds its first character. */
  lemma {:induction false} ContainsHead(s: string, sep: string)
    requires sep != [] && Contains(s, sep)
    ensures sep[0] in s
    decreases |s|
  {
    if s[..|sep|] == sep {
      assert s[0] == sep[0];
    } else {
      ContainsHead(s[1..], sep);
    }
  }

  /** Text without the separator's first character is a single piece. */
  lemma SplitAbsentSep(s: string, sep: string)
    requires sep != [] && sep[0] !in s
    ensures Split(s, sep) == [s]
  {
    if Contains(s, sep) {
      ContainsHead(s, sep);
    }
    SplitSingle(s, sep);
  }

  /** Splitting at the first occurrence of a separator whose first character does not
      occur before it. */
  lemma {:induction false} SplitAtSep(a: string, sep: string, rest: string)
    requires sep != [] && sep[0] !in a
    ensures Split(a + sep + rest, sep) == [a] + Split(rest, sep)
    decreases |a|
  {
    var s := a + sep + rest;
    if a == [] {
      assert s[..|sep|] == sep && s[|sep|..] == rest;
    } else {
      assert s[0] == a[0] && s[..|sep|][0] == a[0];
      assert s[1..] == a[1..] + sep + rest;
      SplitAtSep(a[1..], sep, rest);
      assert a == [a[0]] + a[1..];
    }
  }

  /** Splitting the join of pieces free of a one-character separator gives the pieces. */
  lemma {:induction false} SplitJoinInverse(parts: seq<string>, c: char)
    requires parts != []
    requires forall j :: 0 <= j < |parts| ==> c !in parts[j]
    ensures Split(Join(parts, [c]), [c]) == parts
    decreases |parts|
  {
    if |parts| == 1 {
      SplitAbsentSep(parts[0], [c]);
    } else {
      SplitJoinInverse(parts[1..], c);
      SplitAtSep(parts[0], [c], Join(parts[1..], [c]));
      assert [parts[0]] + parts[1..] == parts;
    }
  }

  /** str.split(c, 1) when c occurs: the text before and after its first occurrence. */
  function SplitOnce(s: string, c: char): (r: (string, string))
    requires c in s
    ensures r.0 + [c] + r.1 == s
    ensures c !in r.0
    decreases |s|
  {
    if s[0] == c then ([], s[1..])
    else
      var (a, b) := SplitOnce(s[1..], c);
      ([s[0]] + a, b)
  }

  /** The halves of split(c, 1) are determined by the first occurrence of c. */
  lemma {:induction false} SplitOnceOf(a: string, c: char, b: string)
    requires c !in a
    ensures SplitOnce(a + [c] + b, c) == (a, b)
    decreases |a|
  {
    var s := a + [c] + b;
    if a != [] {
      assert s[1..] == a[1..] + [c] + b;
      SplitOnceOf(a[1..], c, b);
      assert a == [a[0]] + a[1..];
    } else {
      assert s[1..] == b;
    }
  }

  function LowerChar(c: char): char {
    if 'A' <= c <= 'Z' then (c as int + 32) as char else c
  }

  /** str.lower() on ASCII letters. */
  function Lower(s: string): string {
    seq(|s|, i requires 0 <= i < |s| => LowerChar(s[i]))
  }

  /** str.replace(a, b) for single characters. */
  function ReplaceChar(s: string, a: char, b: char): string {
    seq(|s|, i requires 0 <= i < |s| => if s[i] == a then b else s[i])
  }

  /** The file stem the scripts derive from a process name: name.lower().replace(" ", "_"):
      as long as the name, no spaces and no ASCII capitals, each capital turned into its
      small letter (32 code points up), and every other character kept. */
  function FileStem(name: string): (r: string)
    ensures |r| == |name|
    ensures forall i :: 0 <= i < |r| ==> r[i] != ' ' && !('A' <= r[i] <= 'Z')
    ensures forall i :: 0 <= i < |r| && name[i] == ' ' ==> r[i] == '_'
    ensures forall i :: 0 <= i < |r| && 'A' <= name[i] <= 'Z' ==> r[i] as int == name[i] as int + 32 && 'a' <= r[i] <= 'z'
    ensures forall i :: 0 <= i < |r| && name[i] != ' ' && !('A' <= name[i] <= 'Z') ==> r[i] == name[i]
  {
    ReplaceChar(Lower(name), ' ', '_')
  }

  /** A prefix of at most n characters, like Python's s[:n]. */
  function Take(s: string, n: nat): (r: string)
    ensures |r| == if |s| <= n then |s| else n
    ensures r <= s
  {
    if |s| <= n then s else s[..n]
  }

  function DigitChar(d: nat): char
    requires d < 10
  {
    ('0' as int + d) as char
  }

  predicate IsDigit(c: char) {
    '0' <= c <= '9'
  }

  /** Decimal text of n, as f"{n}" prints it. */
  function NatToString(n: nat): (r: string)
    ensures |r| >= 1
    ensures forall i :: 0 <= i < |r| ==> IsDigit(r[i])
  {
    if n < 10 then [DigitChar(n)] else NatToString(n / 10) + [DigitChar(n % 10)]
  }

  /** int(s) on a string of decimal digits. */
  function DigitsValue(s: string): nat {
    if s == [] then 0
    else
      var c := s[|s| - 1];
      var d := if IsDigit(c) then c as int - '0' as int else 0;
      DigitsValue(s[..|s| - 1]) * 10 + d
  }

  /** int(str(n)) == n. */
  lemma {:induction false} DigitsValueOfNatToString(n: nat)
    ensures DigitsValue(NatToString(n)) == n
  {
    var s := NatToString(n);
    if n >= 10 {
      DigitsValueOfNatToString(n / 10);
      assert s[..|s| - 1] == NatToString(n / 10);
    }
  }

  /** Distinct numbers have distinct decimal texts. */
  lemma NatToStringInjective(a: nat, b: nat)
    requires NatToString(a) == NatToString(b)
    ensures a == b
  {
    DigitsValueOfNatToString(a);
    DigitsValueOfNatToString(b);
  }
}
