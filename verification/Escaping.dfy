/** Replacing single characters in a string, one pass after another. */
module Escaping {

  /** Every occurrence of c becomes the text sub. */
  function Replace(s: string, c: char, sub: string): string {
    if s == "" then "" else (if s[0] == c then sub else [s[0]]) + Replace(s[1..], c, sub)
  }

  /** Each character becomes the text f gives it. */
  function MapChars(s: string, f: char -> string): string {
    if s == "" then "" else f(s[0]) + MapChars(s[1..], f)
  }

  lemma ReplaceHead(s: string, c: char, sub: string)
    requires s != ""
    ensures Replace(s, c, sub) == (if s[0] == c then sub else [s[0]]) + Replace(s[1..], c, sub)
  {
  }

  lemma MapHead(s: string, f: char -> string)
    requires s != ""
    ensures MapChars(s, f) == f(s[0]) + MapChars(s[1..], f)
  {
  }

  lemma Regroup(a: string, b: string, c: string)
    ensures a + (b + c) == (a + b) + c
  {
  }

  lemma {:induction false} ReplaceAppend(s: string, t: string, c: char, sub: string)
    ensures Replace(s + t, c, sub) == Replace(s, c, sub) + Replace(t, c, sub)
  {
    if s == "" {
      assert s + t == t;
    } else {
      assert (s + t)[0] == s[0] && (s + t)[1..] == s[1..] + t;
      ReplaceHead(s + t, c, sub);
      ReplaceAppend(s[1..], t, c, sub);
      ReplaceHead(s, c, sub);
      Regroup(if s[0] == c then sub else [s[0]], Replace(s[1..], c, sub), Replace(t, c, sub));
    }
  }

  /** A replacement after a per-character map is again a per-character map. */
  lemma {:induction false} ReplaceMapped(s: string, f: char -> string, c: char, sub: string, g: char -> string)
    requires forall x :: g(x) == Replace(f(x), c, sub)
    ensures Replace(MapChars(s, f), c, sub) == MapChars(s, g)
  {
    if s != "" {
      ReplaceAppend(f(s[0]), MapChars(s[1..], f), c, sub);
      ReplaceMapped(s[1..], f, c, sub, g);
    }
  }

  lemma {:induction false} ReplaceIsMap(s: string, c: char, sub: string, g: char -> string)
    requires forall x :: g(x) == if x == c then sub else [x]
    ensures Replace(s, c, sub) == MapChars(s, g)
  {
    if s != "" {
      ReplaceIsMap(s[1..], c, sub, g);
    }
  }

  lemma {:induction false} MapAppend(s: string, t: string, f: char -> string)
    ensures MapChars(s + t, f) == MapChars(s, f) + MapChars(t, f)
  {
    if s == "" {
      assert s + t == t;
    } else {
      assert (s + t)[0] == s[0] && (s + t)[1..] == s[1..] + t;
      MapHead(s + t, f);
      MapAppend(s[1..], t, f);
      MapHead(s, f);
      Regroup(f(s[0]), MapChars(s[1..], f), MapChars(t, f));
    }
  }
}
