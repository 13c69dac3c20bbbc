/** C strings and separated text. */
module Text {
  const NUL: char := '\0'

  /** strnlen: the length up to the first NUL. */
  function StrNLen(s: seq<char>): (n: nat)
    ensures n <= |s|
  {
    if s == [] || s[0] == NUL then 0 else 1 + StrNLen(s[1..])
  }

  lemma {:induction false} StrNLenOf(text: seq<char>, rest: seq<char>)
    requires NUL !in text
    ensures StrNLen(text + [NUL] + rest) == |text|
  {
    var s := text + [NUL] + rest;
    if text != [] {
      assert s[1..] == text[1..] + [NUL] + rest;
      StrNLenOf(text[1..], rest);
    }
  }

  /** What a C string holds: the bytes before its first NUL. */
  function UpToNul(s: seq<char>): seq<char> { s[..StrNLen(s)] }

  lemma {:induction false} UpToNulHasNone(s: seq<char>)
    ensures NUL !in UpToNul(s) && UpToNul(s) <= s
    ensures |UpToNul(s)| < |s| ==> s[|UpToNul(s)|] == '\0'
    ensures NUL !in s ==> UpToNul(s) == s
  {
    if s != [] && s[0] != NUL {
      UpToNulHasNone(s[1..]);
      assert UpToNul(s) == [s[0]] + UpToNul(s[1..]);
    }
  }

  /** The pieces of a text between the separators. */
  function Split(s: seq<char>, sep: char): (pieces: seq<seq<char>>)
    ensures |pieces| >= 1
  {
    if s == [] then [[]]
    else
      var rest := Split(s[1..], sep);
      if s[0] == sep then [[]] + rest else [[s[0]] + rest[0]] + rest[1..]
  }

  lemma {:induction false} SplitAt(a: seq<char>, b: seq<char>, sep: char)
    requires sep !in a
    ensures Split(a + [sep] + b, sep) == [a] + Split(b, sep)
  {
    var s := a + [sep] + b;
    if a == [] {
      assert s[1..] == b;
    } else {
      assert s[1..] == a[1..] + [sep] + b;
      SplitAt(a[1..], b, sep);
      assert [s[0]] + a[1..] == a;
    }
  }

  lemma {:induction false} SplitWithout(a: seq<char>, sep: char)
    requires sep !in a
    ensures Split(a, sep) == [a]
  {
    if a != [] {
      SplitWithout(a[1..], sep);
      assert [a[0]] + a[1..] == a;
    }
  }

  lemma {:induction false} PiecesHaveNoSeparator(s: seq<char>, sep: char)
    ensures forall i :: 0 <= i < |Split(s, sep)| ==> sep !in Split(s, sep)[i]
  {
    if s != [] {
      PiecesHaveNoSeparator(s[1..], sep);
    }
  }
}
