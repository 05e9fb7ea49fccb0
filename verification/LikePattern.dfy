/**
 LIKE patterns with ESCAPE '\' (section 8.5 of ISO/IEC 9075-2) and the escaping of user input in
 them. ILIKE is LIKE after a per-character fold.
 */
module LikePattern {
  import opened Common
  import opened Escaping

  // ----- escaping -----

  function EscapeLike(s: string): string {
    Replace(Replace(Replace(s, '\\', "\\\\"), '%', "\\%"), '_', "\\_")
  }

  predicate Special(c: char) {
    c == '\\' || c == '%' || c == '_'
  }

  function EscapeOne(c: char): string {
    if Special(c) then ['\\', c] else [c]
  }

  /** The three passes put one backslash before each special character of the original, and do nothing else. */
  lemma EscapeLikeIsOneMap(s: string)
    ensures EscapeLike(s) == MapChars(s, EscapeOne)
  {
    var f := (x: char) => if x == '\\' then "\\\\" else [x];
    var g := (x: char) => if x == '%' then "\\%" else f(x);
    ReplaceIsMap(s, '\\', "\\\\", f);
    forall x ensures g(x) == Replace(f(x), '%', "\\%") {
    }
    ReplaceMapped(s, f, '%', "\\%", g);
    forall x ensures EscapeOne(x) == Replace(g(x), '_', "\\_") {
    }
    ReplaceMapped(MapChars(s, f), g, '_', "\\_", EscapeOne);
    ReplaceMapped(s, g, '_', "\\_", EscapeOne);
  }

  // ----- matching -----

  datatype Item = Any | One | Lit(c: char)

  /** An escape must be followed by a wildcard or by itself; otherwise the pattern is an error. */
  function Parse(p: string): Option<seq<Item>> {
    if p == "" then Some([])
    else if p[0] == '\\' then
      if |p| == 1 || !Special(p[1]) then None else Prepend(Lit(p[1]), Parse(p[2..]))
    else if p[0] == '%' then Prepend(Any, Parse(p[1..]))
    else if p[0] == '_' then Prepend(One, Parse(p[1..]))
    else Prepend(Lit(p[0]), Parse(p[1..]))
  }

  function Prepend(i: Item, rest: Option<seq<Item>>): Option<seq<Item>> {
    match rest
    case None => None
    case Some(items) => Some([i] + items)
  }

  ghost predicate Matches(items: seq<Item>, t: string, fold: char -> char)
    decreases items
  {
    if items == [] then t == ""
    else match items[0]
      case Any => exists k: nat :: k <= |t| && Matches(items[1..], t[k..], fold)
      case One => t != "" && Matches(items[1..], t[1..], fold)
      case Lit(c) => t != "" && fold(t[0]) == fold(c) && Matches(items[1..], t[1..], fold)
  }

  ghost predicate Like(t: string, pattern: string, fold: char -> char) {
    Parse(pattern).Some? && Matches(Parse(pattern).value, t, fold)
  }

  // ----- the filter -----

  function Pattern(prefix: bool, suffix: bool, value: string): string {
    (if prefix then "%" else "") + EscapeLike(value) + (if suffix then "%" else "")
  }

  ghost predicate SameFolded(s: string, t: string, fold: char -> char) {
    |s| == |t| && forall i | 0 <= i < |s| :: fold(s[i]) == fold(t[i])
  }

  /** The value stands at position k of t. */
  ghost predicate StandsAt(value: string, t: string, k: nat, fold: char -> char) {
    k + |value| <= |t| && SameFolded(t[k..k + |value|], value, fold)
  }

  /** The value occurs in t: anywhere, or only at the start, at the end, or as the whole. */
  ghost predicate Found(prefix: bool, suffix: bool, value: string, t: string, fold: char -> char) {
    exists k: nat :: StandsAt(value, t, k, fold) && (prefix || k == 0) && (suffix || k + |value| == |t|)
  }

  function Literals(s: string): seq<Item> {
    seq(|s|, i requires 0 <= i < |s| => Lit(s[i]))
  }

  lemma LiteralsStep(s: string, items: seq<Item>)
    requires s != ""
    ensures Literals(s) + items == [Lit(s[0])] + (Literals(s[1..]) + items)
  {
  }

  lemma {:induction false} ParseEscaped(s: string, tail: string, items: seq<Item>)
    requires Parse(tail) == Some(items)
    ensures Parse(MapChars(s, EscapeOne) + tail) == Some(Literals(s) + items)
  {
    if s == "" {
      assert MapChars(s, EscapeOne) + tail == tail;
      assert Literals(s) + items == items;
    } else {
      var rest := MapChars(s[1..], EscapeOne) + tail;
      ParseEscaped(s[1..], tail, items);
      assert MapChars(s, EscapeOne) + tail == EscapeOne(s[0]) + rest;
      LiteralsStep(s, items);
    }
  }

  /** The pattern is never an error: it parses to the value's own characters between the wildcards. */
  lemma ParsePattern(prefix: bool, suffix: bool, value: string)
    ensures Parse(Pattern(prefix, suffix, value)) ==
            Some((if prefix then [Any] else []) + Literals(value) + (if suffix then [Any] else []))
  {
    EscapeLikeIsOneMap(value);
    var tail, last := if suffix then "%" else "", if suffix then [Any] else [];
    assert Parse("") == Some([]);
    assert "%" + "" == "%";
    assert [Any] + [] == [Any];
    ParseEscaped(value, tail, last);
    var body := EscapeLike(value) + tail;
    if prefix {
      assert Pattern(prefix, suffix, value) == "%" + body;
      assert [Any] + Literals(value) + last == [Any] + (Literals(value) + last);
    } else {
      assert Pattern(prefix, suffix, value) == body;
      assert [] + Literals(value) + last == Literals(value) + last;
    }
  }

  /** Literal characters match one for one, and the rest of the pattern matches the rest of the text. */
  lemma {:induction false} MatchesLiterals(s: string, items: seq<Item>, t: string, fold: char -> char)
    ensures Matches(Literals(s) + items, t, fold) <==> StandsAt(s, t, 0, fold) && Matches(items, t[|s|..], fold)
  {
    if s == "" {
      assert Literals(s) + items == items;
      assert t[0..] == t;
    } else {
      assert Literals(s) + items == [Lit(s[0])] + (Literals(s[1..]) + items);
      assert (Literals(s) + items)[1..] == Literals(s[1..]) + items;
      if t != "" {
        MatchesLiterals(s[1..], items, t[1..], fold);
        if |s| <= |t| {
          assert t[1..][|s| - 1..] == t[|s|..];
          assert t[0..|s|] == [t[0]] + t[1..][0..|s| - 1];
          assert s == [s[0]] + s[1..];
        }
      }
    }
  }

  lemma MatchesTail(suffix: bool, t: string, fold: char -> char)
    ensures Matches(if suffix then [Any] else [], t, fold) <==> suffix || t == ""
  {
    if suffix {
      assert [Any][1..] == [];
      assert Matches([], t[|t|..], fold);
    }
  }

  lemma MatchesFrom(suffix: bool, value: string, t: string, k: nat, fold: char -> char)
    requires k <= |t|
    ensures Matches(Literals(value) + (if suffix then [Any] else []), t[k..], fold) <==>
            StandsAt(value, t, k, fold) && (suffix || k + |value| == |t|)
  {
    MatchesLiterals(value, if suffix then [Any] else [], t[k..], fold);
    if k + |value| <= |t| {
      assert t[k..][0..|value|] == t[k..k + |value|];
      MatchesTail(suffix, t[k..][|value|..], fold);
    }
  }

  /**
   What the filter finds, for every value and text: with both wildcards the texts that contain the
   value, with one the texts that end or start with it, with none the texts equal to it.
   */
  lemma FilterFinds(prefix: bool, suffix: bool, value: string, t: string, fold: char -> char)
    ensures Like(t, Pattern(prefix, suffix, value), fold) <==> Found(prefix, suffix, value, t, fold)
  {
    ParsePattern(prefix, suffix, value);
    var last := if suffix then [Any] else [];
    var rest := Literals(value) + last;
    forall k: nat | k <= |t|
      ensures Matches(rest, t[k..], fold) <==> StandsAt(value, t, k, fold) && (suffix || k + |value| == |t|)
    {
      MatchesFrom(suffix, value, t, k, fold);
    }
    if prefix {
      assert [Any] + Literals(value) + last == [Any] + rest;
      assert ([Any] + rest)[1..] == rest;
    } else {
      assert [] + Literals(value) + last == rest;
      assert t[0..] == t;
    }
  }

  /** The query text and the parameters that a service builds up. */
  class Query {
    var sql: string
    var args: map<string, string>

    method AddILikeFilter(column: string, paramName: string, value: Option<string>, prefix: bool, suffix: bool)
      modifies this
      ensures value in {None, Some("")} ==> sql == old(sql) && args == old(args)
      ensures value !in {None, Some("")} ==>
                && sql == old(sql) + " AND " + column + " ILIKE @" + paramName + " ESCAPE '\\'"
                && args.Keys == old(args.Keys) + {paramName}
                && args == old(args)[paramName := args[paramName]]
                && forall t, fold ::
                     Like(t, args[paramName], fold) <==> Found(prefix, suffix, value.value, t, fold)
    {
      if value == None || value == Some("") {
        return;
      }
      sql := sql + " AND " + column + " ILIKE @" + paramName + " ESCAPE '\\'";
      var escaped := EscapeLike(value.value);
      var pattern := (if prefix then "%" else "") + escaped + (if suffix then "%" else "");
      args := args[paramName := pattern];
      forall t, fold
        ensures Like(t, pattern, fold) <==> Found(prefix, suffix, value.value, t, fold)
      {
        FilterFinds(prefix, suffix, value.value, t, fold);
      }
    }
  }
}
