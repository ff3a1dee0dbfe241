/** The string operations of Go's `strings` package that the hostname logic relies on,
    over ASCII, with the facts about splitting and trimming that the later modules need. */
module Strings {

  datatype Option<+T> = None | Some(value: T)

  function Over<T>(preferred: Option<T>, fallback: Option<T>): Option<T> {
    if preferred.Some? then preferred else fallback
  }

  predicate IsSpace(c: char) {
    c == ' ' || c == '\t' || c == '\n' || c == '\r' || c == '\U{000B}' || c == '\U{000C}'
  }

  lemma SpaceMeaning(c: char)
    ensures IsSpace(c) <==> c in " \t\n\r\U{000B}\U{000C}"
  {
    var spaces := " \t\n\r\U{000B}\U{000C}";
    assert spaces[0] == ' ' && spaces[1] == '\t' && spaces[2] == '\n' && spaces[3] == '\r'
           && spaces[4] == '\U{000B}' && spaces[5] == '\U{000C}';
  }

  predicate IsDot(c: char) {
    c == '.'
  }

  function LowerChar(c: char): char {
    if 'A' <= c <= 'Z' then c - 'A' + 'a' else c
  }

  function ToLower(s: string): (t: string)
    ensures |t| == |s|
    ensures forall i {:trigger t[i]} :: 0 <= i < |s| ==> t[i] == LowerChar(s[i])
  {
    seq(|s|, i requires 0 <= i < |s| => LowerChar(s[i]))
  }

  const UPPER := "ABCDEFGHIJKLMNOPQRSTUVWXYZ"
  const LOWER := "abcdefghijklmnopqrstuvwxyz"

  lemma Alphabets()
    ensures |UPPER| == |LOWER| == 26
    ensures forall k :: 0 <= k < 26 ==> UPPER[k] as int == 'A' as int + k && LOWER[k] as int == 'a' as int + k
  {
  }

  lemma LowerByTable(c: char, upper: string, lower: string)
    requires |upper| == |lower| == 26
    requires forall k :: 0 <= k < 26 ==> upper[k] as int == 'A' as int + k && lower[k] as int == 'a' as int + k
    ensures forall k :: 0 <= k < 26 && c == upper[k] ==> LowerChar(c) == lower[k]
    ensures c !in upper ==> LowerChar(c) == c
    ensures LowerChar(c) !in upper
  {
    if 'A' <= c <= 'Z' { assert upper[c as int - 'A' as int] == c; }
  }

  // Lower case letter by letter; nothing but a capital changes.
  lemma ToLowerMeaning(s: string, i: nat)
    requires i < |s|
    ensures forall k :: 0 <= k < 26 && s[i] == UPPER[k] ==> ToLower(s)[i] == LOWER[k]
    ensures s[i] !in UPPER ==> ToLower(s)[i] == s[i]
    ensures ToLower(s)[i] !in UPPER
  {
    Alphabets();
    LowerByTable(s[i], UPPER, LOWER);
    assert ToLower(s)[i] == LowerChar(s[i]);
    hide LowerChar, ToLower;
  }

  lemma ToLowerTwice(s: string)
    ensures ToLower(ToLower(s)) == ToLower(s)
  {
  }

  lemma ToLowerConcat(s: string, t: string)
    ensures ToLower(s + t) == ToLower(s) + ToLower(t)
  {
  }

  // ----- Trimming -----

  function TrimLeft(s: string, cut: char -> bool): (t: string)
    ensures |t| <= |s|
    ensures t != "" ==> !cut(t[0])
  {
    if s != "" && cut(s[0]) then TrimLeft(s[1..], cut) else s
  }

  function TrimRight(s: string, cut: char -> bool): (t: string)
    ensures |t| <= |s|
    ensures t != "" ==> !cut(t[|t| - 1])
  {
    if s != "" && cut(s[|s| - 1]) then TrimRight(s[..|s| - 1], cut) else s
  }

  function Trim(s: string, cut: char -> bool): (t: string)
    ensures |t| <= |s|
    ensures t != "" ==> !cut(t[|t| - 1])
  {
    TrimRight(TrimLeft(s, cut), cut)
  }

  function TrimSpace(s: string): string {
    Trim(s, IsSpace)
  }

  function TrimDots(s: string): string {
    Trim(s, IsDot)
  }

  // Neither end of s would be trimmed.
  predicate CleanEnds(s: string, cut: char -> bool) {
    s == "" || (!cut(s[0]) && !cut(s[|s| - 1]))
  }

  lemma {:induction false} TrimLeftSlice(s: string, cut: char -> bool)
    ensures TrimLeft(s, cut) == s[|s| - |TrimLeft(s, cut)|..]
  {
    if s != "" && cut(s[0]) {
      TrimLeftSlice(s[1..], cut);
    }
  }

  lemma {:induction false} TrimLeftKeepsLast(s: string, cut: char -> bool)
    requires s != "" && !cut(s[|s| - 1])
    ensures TrimLeft(s, cut) != ""
  {
    if cut(s[0]) {
      TrimLeftKeepsLast(s[1..], cut);
    }
  }

  lemma {:induction false} TrimRightSlice(s: string, cut: char -> bool)
    ensures TrimRight(s, cut) == s[..|TrimRight(s, cut)|]
  {
    if s != "" && cut(s[|s| - 1]) {
      TrimRightSlice(s[..|s| - 1], cut);
    }
  }

  // What is left is a slice of s whose ends would not be trimmed.
  lemma TrimIsSlice(s: string, cut: char -> bool) returns (i: nat)
    ensures i + |Trim(s, cut)| <= |s| && Trim(s, cut) == s[i..i + |Trim(s, cut)|]
    ensures CleanEnds(Trim(s, cut), cut)
  {
    var left := TrimLeft(s, cut);
    TrimLeftSlice(s, cut);
    TrimRightSlice(left, cut);
    i := |s| - |left|;
    assert left[..|Trim(s, cut)|] == s[i..i + |Trim(s, cut)|];
  }

  lemma TrimKeeps(s: string, cut: char -> bool)
    ensures Trim(s, cut) == s <==> CleanEnds(s, cut)
  {
    var _ := TrimIsSlice(s, cut);
  }

  // Trimming removes exactly a left pad and a right pad made of cut characters.
  lemma TrimPadded(left: string, core: string, right: string, cut: char -> bool)
    requires forall i :: 0 <= i < |left| ==> cut(left[i])
    requires forall i :: 0 <= i < |right| ==> cut(right[i])
    requires core != "" && CleanEnds(core, cut)
    ensures Trim(left + core + right, cut) == core
  {
    TrimLeftPad(left, core + right, cut);
    assert left + core + right == left + (core + right);
    TrimRightPad(core, right, cut);
  }

  lemma {:induction false} TrimLeftPad(left: string, rest: string, cut: char -> bool)
    requires forall i :: 0 <= i < |left| ==> cut(left[i])
    requires rest != "" && !cut(rest[0])
    ensures TrimLeft(left + rest, cut) == rest
  {
    if left == "" {
      assert left + rest == rest;
    } else {
      assert (left + rest)[1..] == left[1..] + rest;
      TrimLeftPad(left[1..], rest, cut);
    }
  }

  lemma {:induction false} TrimRightPad(core: string, right: string, cut: char -> bool)
    requires forall i :: 0 <= i < |right| ==> cut(right[i])
    requires core != "" && !cut(core[|core| - 1])
    ensures TrimRight(core + right, cut) == core
  {
    if right == "" {
      assert core + right == core;
    } else {
      assert (core + right)[..|core + right| - 1] == core + right[..|right| - 1];
      TrimRightPad(core, right[..|right| - 1], cut);
    }
  }

  // ----- Prefixes and suffixes -----

  predicate HasPrefix(s: string, prefix: string) {
    prefix <= s
  }

  predicate HasSuffix(s: string, suffix: string) {
    |suffix| <= |s| && s[|s| - |suffix|..] == suffix
  }

  function TrimPrefix(s: string, prefix: string): string {
    if HasPrefix(s, prefix) then s[|prefix|..] else s
  }

  lemma SuffixFront(s: string, suffix: string) returns (front: string)
    requires HasSuffix(s, suffix)
    ensures s == front + suffix
  {
    front := s[..|s| - |suffix|];
  }

  lemma SuffixOfConcat(front: string, suffix: string)
    ensures HasSuffix(front + suffix, suffix)
  {
  }

  // The part of s before the first sep, or all of s.
  function Before(s: string, sep: char): (t: string)
    ensures |t| <= |s|
    ensures sep !in t
    ensures sep !in s ==> t == s
  {
    if s == "" || s[0] == sep then "" else [s[0]] + Before(s[1..], sep)
  }

  lemma {:induction false} BeforeIsFront(s: string, sep: char)
    ensures Before(s, sep) == s[..|Before(s, sep)|]
    ensures |Before(s, sep)| < |s| ==> s == Before(s, sep) + [sep] + s[|Before(s, sep)| + 1..]
  {
    if s != "" && s[0] != sep { BeforeIsFront(s[1..], sep); }
  }

  lemma {:induction false} BeforeConcat(s: string, sep: char, rest: string)
    requires sep !in s
    ensures Before(s + [sep] + rest, sep) == s
  {
    if s != "" {
      assert (s + [sep] + rest)[1..] == s[1..] + [sep] + rest;
      BeforeConcat(s[1..], sep, rest);
    }
  }

  // ----- Splitting on a separator -----

  function Split(s: string, sep: char): (parts: seq<string>)
    ensures |parts| >= 1
    ensures forall p :: p in parts ==> sep !in p
  {
    if s == "" then [""]
    else
      var rest := Split(s[1..], sep);
      if s[0] == sep then [""] + rest
      else [[s[0]] + rest[0]] + rest[1..]
  }

  function Join(parts: seq<string>, sep: char): string
    requires parts != []
  {
    if |parts| == 1 then parts[0] else parts[0] + [sep] + Join(parts[1..], sep)
  }

  lemma {:induction false} JoinSplit(s: string, sep: char)
    ensures Join(Split(s, sep), sep) == s
  {
    if s != "" {
      var rest := Split(s[1..], sep);
      JoinSplit(s[1..], sep);
      if s[0] == sep {
        assert Split(s, sep)[1..] == rest;
      } else {
        var parts := Split(s, sep);
        assert parts[1..] == rest[1..];
        if |rest| > 1 {
          assert Join(parts, sep) == [s[0]] + (rest[0] + [sep] + Join(rest[1..], sep));
        }
      }
    }
  }

  lemma {:induction false} SplitPlain(s: string, sep: char)
    ensures sep !in s <==> |Split(s, sep)| == 1
    ensures sep !in s ==> Split(s, sep) == [s]
  {
    if s != "" {
      SplitPlain(s[1..], sep);
      assert s == [s[0]] + s[1..];
    }
  }

  lemma {:induction false} SplitConcat(a: string, sep: char, b: string)
    ensures Split(a + [sep] + b, sep) == Split(a, sep) + Split(b, sep)
  {
    var whole := a + [sep] + b;
    if a == "" {
      assert whole[1..] == b;
    } else {
      assert whole[1..] == a[1..] + [sep] + b;
      SplitConcat(a[1..], sep, b);
    }
  }

  lemma SplitFirst(part: string, sep: char, rest: string)
    requires sep !in part
    ensures Split(part + [sep] + rest, sep) == [part] + Split(rest, sep)
  {
    SplitConcat(part, sep, rest);
    SplitPlain(part, sep);
  }

  lemma {:induction false} JoinConcat(a: seq<string>, b: seq<string>, sep: char)
    requires a != [] && b != []
    ensures Join(a + b, sep) == Join(a, sep) + [sep] + Join(b, sep)
  {
    if |a| == 1 {
      assert (a + b)[1..] == b;
    } else {
      assert (a + b)[1..] == a[1..] + b;
      JoinConcat(a[1..], b, sep);
      var ja, jb := Join(a[1..], sep), Join(b, sep);
      assert a[0] + [sep] + (ja + [sep] + jb) == (a[0] + [sep] + ja) + [sep] + jb;
    }
  }

  // Splitting what was joined from parts without separators gives the parts back.
  lemma {:induction false} SplitJoin(parts: seq<string>, sep: char)
    requires parts != [] && forall p :: p in parts ==> sep !in p
    ensures Split(Join(parts, sep), sep) == parts
  {
    assert parts[0] in parts;
    SplitPlain(parts[0], sep);
    if |parts| > 1 {
      SplitJoin(parts[1..], sep);
      SplitConcat(parts[0], sep, Join(parts[1..], sep));
    }
  }
}
