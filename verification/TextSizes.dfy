/** The sizes of a QString: in UTF-16 units, as size() counts them, and in bytes after toUtf8. */
module TextSizes {
  /** QString::size: a character beyond the basic plane takes two UTF-16 units. */
  function Utf16Size(s: string): nat {
    if s == "" then 0 else Utf16Size(s[..|s| - 1]) + if s[|s| - 1] < '\U{10000}' then 1 else 2
  }

  /** The size after QString::toUtf8. */
  function Utf8Size(s: string): nat {
    if s == "" then 0
    else
      var c := s[|s| - 1];
      Utf8Size(s[..|s| - 1])
      + if c < '\U{0080}' then 1 else if c < '\U{0800}' then 2 else if c < '\U{10000}' then 3 else 4
  }

  /** A text never has more UTF-16 units than UTF-8 bytes, so of two tests against one bound the first rejects nothing more. */
  lemma {:induction false} UnitsBoundedByBytes(s: string)
    ensures |s| <= Utf16Size(s) <= Utf8Size(s)
  {
    if s != "" {
      UnitsBoundedByBytes(s[..|s| - 1]);
    }
  }

  lemma {:induction false} SizesAddUp(a: string, b: string)
    ensures Utf16Size(a + b) == Utf16Size(a) + Utf16Size(b) && Utf8Size(a + b) == Utf8Size(a) + Utf8Size(b)
  {
    if b == "" {
      assert a + b == a;
    } else {
      var n := |b| - 1;
      assert (a + b)[..|a + b| - 1] == a + b[..n];
      SizesAddUp(a, b[..n]);
    }
  }

  /** One letter, one accented letter, one sign of the basic plane and one beyond it. */
  lemma SingleCharacters()
    ensures Utf16Size("e") == 1 && Utf16Size("\U{00E9}") == 1 && Utf16Size("\U{20AC}") == 1 && Utf16Size("\U{1F600}") == 2
    ensures Utf8Size("e") == 1 && Utf8Size("\U{00E9}") == 2 && Utf8Size("\U{20AC}") == 3 && Utf8Size("\U{1F600}") == 4
  {
    forall c: char ensures [c][..0] == "" {}
  }
}
