// The string helpers the programs share. Case and white space are ASCII.
module Strings {

  function ToLower(s: string): (t: string)
    ensures |t| == |s|
  {
    seq(|s|, i requires 0 <= i < |s| => if 'A' <= s[i] <= 'Z' then s[i] + 32 as char else s[i])
  }

  predicate IsUpper(c: char) {
    'A' <= c <= 'Z'
  }

  // A letter and its other case, or the same character.
  predicate SameLetter(a: char, b: char) {
    a == b || (IsUpper(a) && b as int == a as int + 32) || (IsUpper(b) && a as int == b as int + 32)
  }

  predicate SameButForCase(s: string, t: string) {
    |s| == |t| && forall i :: 0 <= i < |s| ==> SameLetter(s[i], t[i])
  }

  // Two strings have one lower-case form exactly when they differ in the case of letters only, and it is the
  // one of them without upper-case letters.
  lemma LowerCase(s: string, t: string)
    ensures ToLower(s) == ToLower(t) <==> SameButForCase(s, t)
    ensures forall c :: c in ToLower(s) ==> !IsUpper(c)
    ensures (forall c :: c in s ==> !IsUpper(c)) ==> ToLower(s) == s
  {
    if ToLower(s) == ToLower(t) {
      forall i | 0 <= i < |s| ensures SameLetter(s[i], t[i]) {
        assert ToLower(s)[i] == ToLower(t)[i];
      }
    }
    if forall c :: c in s ==> !IsUpper(c) {
      forall i | 0 <= i < |s| ensures ToLower(s)[i] == s[i] {
        assert s[i] in s;
      }
    }
  }

  lemma KnownCases()
    ensures ToLower("TCP") == "tcp" && ToLower("UDP") == "udp" && ToLower("tcp") == "tcp" && ToLower("udp") == "udp"
  {
  }

  predicate Spaces(s: string) {
    forall i :: 0 <= i < |s| ==> s[i] == ' '
  }

  // Trimming finds the middle of a string between spaces, with no space at its ends.
  lemma {:induction false} TrimLeftSplits(s: string) returns (left: string)
    ensures Spaces(left) && s == left + TrimLeft(s) && (TrimLeft(s) == "" || TrimLeft(s)[0] != ' ')
  {
    left := "";
    if s != "" && s[0] == ' ' {
      var rest := TrimLeftSplits(s[1..]);
      left := " " + rest;
    }
  }

  lemma {:induction false} TrimRightSplits(s: string) returns (right: string)
    ensures Spaces(right) && s == TrimRight(s) + right
    ensures TrimRight(s) == "" || TrimRight(s)[|TrimRight(s)| - 1] != ' '
  {
    right := "";
    if s != "" && s[|s| - 1] == ' ' {
      var rest := TrimRightSplits(s[..|s| - 1]);
      right := rest + " ";
    }
  }

  lemma {:induction false} TrimLeftOf(left: string, s: string)
    requires Spaces(left) && (s == "" || s[0] != ' ')
    ensures TrimLeft(left + s) == s
  {
    if left == "" {
      assert left + s == s;
    } else {
      TrimLeftOf(left[1..], s);
      assert (left + s)[0] == ' ' && (left + s)[1..] == left[1..] + s;
    }
  }

  lemma {:induction false} TrimRightOf(s: string, right: string)
    requires Spaces(right) && (s == "" || s[|s| - 1] != ' ')
    ensures TrimRight(s + right) == s
  {
    if right == "" {
      assert s + right == s;
    } else {
      var n := |right| - 1;
      TrimRightOf(s, right[..n]);
      assert (s + right)[|s| + n] == ' ' && (s + right)[..|s| + n] == s + right[..n];
    }
  }

  function TrimLeft(s: string): string {
    if s != "" && s[0] == ' ' then TrimLeft(s[1..]) else s
  }

  function TrimRight(s: string): string {
    if s != "" && s[|s| - 1] == ' ' then TrimRight(s[..|s| - 1]) else s
  }

  function TrimPrefix(s: string, prefix: string): string {
    if prefix <= s then s[|prefix|..] else s
  }

  predicate HasSuffix(s: string, suffix: string) {
    |suffix| <= |s| && s[|s| - |suffix|..] == suffix
  }

  // The parts between slashes; there is always one, possibly empty.
  function Split(s: string): (parts: seq<string>)
    ensures parts != []
  {
    if s == "" then [""]
    else
      var rest := Split(s[1..]);
      if s[0] == '/' then [""] + rest else [[s[0]] + rest[0]] + rest[1..]
  }

  predicate SlashFree(s: string) {
    '/' !in s
  }

  lemma {:induction false} SplitFree(s: string)
    requires SlashFree(s)
    ensures Split(s) == [s]
  {
    if s != "" {
      SplitFree(s[1..]);
      assert [s[0]] + s[1..] == s;
    }
  }

  lemma {:induction false} SplitAt(a: string, rest: string)
    requires SlashFree(a)
    ensures Split(a + "/" + rest) == [a] + Split(rest)
  {
    var s := a + "/" + rest;
    if a == "" {
      assert s[1..] == rest;
    } else {
      SplitAt(a[1..], rest);
      assert s[1..] == a[1..] + "/" + rest;
      assert [a[0]] + a[1..] == a;
    }
  }

  // The first part and what follows its slash.
  lemma {:induction false} SplitHead(s: string)
    ensures SlashFree(Split(s)[0])
    ensures if |Split(s)| == 1 then s == Split(s)[0]
            else exists rest :: s == Split(s)[0] + "/" + rest && Split(rest) == Split(s)[1..]
  {
    if s != "" {
      var t := s[1..];
      SplitHead(t);
      assert s == [s[0]] + t;
      if s[0] == '/' {
        assert s == "" + "/" + t;
      } else if |Split(t)| > 1 {
        var rest :| t == Split(t)[0] + "/" + rest && Split(rest) == Split(t)[1..];
        assert s == ([s[0]] + Split(t)[0]) + "/" + rest;
      }
    }
  }
}
