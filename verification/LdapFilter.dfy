/**
 LDAP search filters: the escaping of user input, measured against a parser of the string
 representation in section 3 of RFC 4515.
 */
module LdapFilter {
  import opened Common
  import opened Escaping

  // ----- escaping -----

  function EscapeLdap(s: string): string {
    Replace(Replace(Replace(Replace(Replace(Replace(s,
      '\\', "\\5c"), '*', "\\2a"), '(', "\\28"), ')', "\\29"), '\0', "\\00"), '/', "\\2f")
  }

  /** f keeps a character or turns it into three others, none of which is c. */
  ghost predicate Leaves(f: char -> string, c: char) {
    f(c) == [c] && forall x :: f(x) == [x] || (|f(x)| == 3 && c !in f(x))
  }

  /** A pass changes c itself and no earlier escape. */
  lemma PassThrough(s: string, c: char, sub: string)
    requires |s| == 1 || (|s| == 3 && c !in s)
    ensures Replace(s, c, sub) == if s == [c] then sub else s
  {
    if |s| == 3 {
      assert s[1..][1..][1..] == "";
      assert Replace(s[1..][1..], c, sub) == s[1..][1..];
      assert Replace(s[1..], c, sub) == s[1..];
    }
  }

  lemma NextPass(s: string, f: char -> string, c: char, sub: string, g: char -> string)
    requires Leaves(f, c)
    requires forall x :: g(x) == if x == c then sub else f(x)
    ensures Replace(MapChars(s, f), c, sub) == MapChars(s, g)
  {
    forall x ensures g(x) == Replace(f(x), c, sub) {
      PassThrough(f(x), c, sub);
    }
    ReplaceMapped(s, f, c, sub, g);
  }

  function Pass1(c: char): string {
    if c == '\\' then "\\5c" else [c]
  }

  function Pass2(c: char): string {
    if c == '*' then "\\2a" else Pass1(c)
  }

  function Pass3(c: char): string {
    if c == '(' then "\\28" else Pass2(c)
  }

  function Pass4(c: char): string {
    if c == ')' then "\\29" else Pass3(c)
  }

  function Pass5(c: char): string {
    if c == '\0' then "\\00" else Pass4(c)
  }

  function EscapeOne(c: char): string {
    if c == '/' then "\\2f" else Pass5(c)
  }

  lemma FirstPasses(s: string)
    ensures Replace(Replace(Replace(s, '\\', "\\5c"), '*', "\\2a"), '(', "\\28") == MapChars(s, Pass3)
  {
    ReplaceIsMap(s, '\\', "\\5c", Pass1);
    NextPass(s, Pass1, '*', "\\2a", Pass2);
    NextPass(s, Pass2, '(', "\\28", Pass3);
  }

  lemma FourthPass(s: string)
    ensures Replace(MapChars(s, Pass3), ')', "\\29") == MapChars(s, Pass4)
  {
    NextPass(s, Pass3, ')', "\\29", Pass4);
  }

  lemma FifthPass(s: string)
    ensures Replace(MapChars(s, Pass4), '\0', "\\00") == MapChars(s, Pass5)
  {
    NextPass(s, Pass4, '\0', "\\00", Pass5);
  }

  lemma LastPass(s: string)
    ensures Replace(MapChars(s, Pass5), '/', "\\2f") == MapChars(s, EscapeOne)
  {
    NextPass(s, Pass5, '/', "\\2f", EscapeOne);
  }

  /** The six passes escape each character of the original once, and nothing else. */
  lemma EscapeLdapIsOneMap(s: string)
    ensures EscapeLdap(s) == MapChars(s, EscapeOne)
  {
    FirstPasses(s);
    FourthPass(s);
    FifthPass(s);
    LastPass(s);
  }

  predicate Bare(c: char) {
    c == '*' || c == '(' || c == ')' || c == '\0'
  }

  /** Nothing that shapes a filter survives bare in the output. */
  lemma NothingBare(s: string)
    ensures forall c | c in EscapeLdap(s) :: !Bare(c)
  {
    EscapeLdapIsOneMap(s);
    MapNothingBare(s);
  }

  lemma {:induction false} MapNothingBare(s: string)
    ensures forall c | c in MapChars(s, EscapeOne) :: !Bare(c)
  {
    if s != "" {
      MapNothingBare(s[1..]);
    }
  }

  // ----- assertion values -----

  function HexDigit(c: char): Option<nat> {
    if '0' <= c <= '9' then Some((c - '0') as nat)
    else if 'a' <= c <= 'f' then Some((c - 'a') as nat + 10)
    else if 'A' <= c <= 'F' then Some((c - 'A') as nat + 10)
    else None
  }

  /** The character that two hex digits stand for; octets of longer encodings are refused. */
  function HexPair(a: char, b: char): Option<char> {
    match (HexDigit(a), HexDigit(b))
    case (Some(m), Some(n)) => if m < 8 && n < 16 then Some((16 * m + n) as char) else None
    case _ => None
  }

  /**
   The value after '=': texts separated by bare asterisks, up to the closing parenthesis. One text is
   an equality, more are a substring assertion.
   */
  function ParseValue(s: string): (r: Option<(seq<string>, string)>)
    ensures r.Some? ==> r.value.0 != [] && |r.value.1| <= |s|
  {
    if s == "" || s[0] == ')' then Some(([""], s))
    else if s[0] == '*' then
      match ParseValue(s[1..])
      case None => None
      case Some(r) => Some(([""] + r.0, r.1))
    else if s[0] == '(' || s[0] == '\0' then None
    else if s[0] == '\\' then
      if |s| < 3 then None
      else
        match HexPair(s[1], s[2])
        case None => None
        case Some(c) => Glue([c], ParseValue(s[3..]))
    else Glue([s[0]], ParseValue(s[1..]))
  }

  /** Text put before the first of the parsed texts. */
  function Glue(t: string, r: Option<(seq<string>, string)>): (g: Option<(seq<string>, string)>)
    requires r.Some? ==> r.value.0 != []
    ensures g.Some? ==> g.value.0 != [] && r.Some? && g.value.1 == r.value.1
  {
    match r
    case None => None
    case Some(v) => Some((v.0[0 := t + v.0[0]], v.1))
  }

  lemma GlueOne(c: char, rest: string)
    ensures ParseValue(EscapeOne(c) + rest) == Glue([c], ParseValue(rest))
  {
    var s := EscapeOne(c) + rest;
    assert s[|EscapeOne(c)|..] == rest;
    if |EscapeOne(c)| == 3 {
      assert s[1] == EscapeOne(c)[1] && s[2] == EscapeOne(c)[2];
      assert HexPair(s[1], s[2]) == Some(c);
    }
  }

  /** The decoder reads an escaped text back as the text itself. */
  lemma {:induction false} GlueEscaped(t: string, rest: string)
    ensures ParseValue(MapChars(t, EscapeOne) + rest) == Glue(t, ParseValue(rest))
  {
    if t == "" {
      assert MapChars(t, EscapeOne) + rest == rest;
      GlueNothing(ParseValue(rest));
    } else {
      var more := MapChars(t[1..], EscapeOne) + rest;
      GlueEscaped(t[1..], rest);
      GlueOne(t[0], more);
      assert MapChars(t, EscapeOne) + rest == EscapeOne(t[0]) + more;
      GlueTwice(t, ParseValue(rest));
    }
  }

  lemma GlueNothing(r: Option<(seq<string>, string)>)
    requires r.Some? ==> r.value.0 != []
    ensures Glue("", r) == r
  {
    if r.Some? {
      assert "" + r.value.0[0] == r.value.0[0];
      assert r.value.0[0 := r.value.0[0]] == r.value.0;
    }
  }

  lemma GlueTwice(t: string, r: Option<(seq<string>, string)>)
    requires t != "" && (r.Some? ==> r.value.0 != [])
    ensures Glue([t[0]], Glue(t[1..], r)) == Glue(t, r)
  {
    if r.Some? {
      var v := r.value.0;
      assert [t[0]] + (t[1..] + v[0]) == t + v[0];
      assert v[0 := t[1..] + v[0]][0 := t + v[0]] == v[0 := t + v[0]];
    }
  }

  lemma GlueStart(t: string, more: seq<string>, rest: string)
    ensures Glue(t, Some(([""] + more, rest))) == Some(([t] + more, rest))
  {
    assert t + "" == t;
    assert ([""] + more)[0 := t] == [t] + more;
  }

  /** Decoding gives back the original, for every string. */
  lemma EscapeRoundTrip(s: string)
    ensures ParseValue(EscapeLdap(s)) == Some(([s], ""))
  {
    EscapeLdapIsOneMap(s);
    GlueEscaped(s, "");
    assert MapChars(s, EscapeOne) + "" == MapChars(s, EscapeOne);
    GlueStart(s, [], "");
    assert [""] + [] == [""] && [s] + [] == [s];
  }

  /** Different inputs never escape to the same text. */
  lemma EscapeInjective(s: string, t: string)
    requires EscapeLdap(s) == EscapeLdap(t)
    ensures s == t
  {
    EscapeRoundTrip(s);
    EscapeRoundTrip(t);
    assert [s][0] == [t][0];
  }

  // ----- filters -----

  datatype Filter = And(all: Filters) | Or(any: Filters) | Not(inner: Filter) | Item(attr: string, texts: seq<string>)

  datatype Filters = Nil | Cons(head: Filter, tail: Filters)

  /** An attribute description: what stands before '='. */
  predicate AttrChar(c: char) {
    !Bare(c) && c != '=' && c != '\\' && c != '&' && c != '|' && c != '!'
  }

  predicate Attr(a: string) {
    a != "" && forall c | c in a :: AttrChar(c)
  }

  predicate WellFormed(f: Filter) {
    match f
    case And(fs) => fs.Cons? && AllWellFormed(fs)
    case Or(fs) => fs.Cons? && AllWellFormed(fs)
    case Not(g) => WellFormed(g)
    case Item(a, ts) => Attr(a) && ts != []
  }

  predicate AllWellFormed(fs: Filters) {
    fs.Cons? ==> WellFormed(fs.head) && AllWellFormed(fs.tail)
  }

  function Render(f: Filter): string {
    match f
    case And(fs) => "(&" + RenderAll(fs) + ")"
    case Or(fs) => "(|" + RenderAll(fs) + ")"
    case Not(g) => "(!" + Render(g) + ")"
    case Item(a, ts) => "(" + a + "=" + RenderValue(ts) + ")"
  }

  function RenderAll(fs: Filters): string {
    match fs
    case Nil => ""
    case Cons(f, rest) => Render(f) + RenderAll(rest)
  }

  function RenderValue(ts: seq<string>): string {
    if ts == [] then ""
    else if |ts| == 1 then EscapeLdap(ts[0])
    else EscapeLdap(ts[0]) + "*" + RenderValue(ts[1..])
  }

  function ParseFilter(s: string): (r: Option<(Filter, string)>)
    ensures r.Some? ==> |r.value.1| < |s|
    decreases |s|, 1
  {
    if |s| < 2 || s[0] != '(' then None
    else Close(if s[1] == '&' then
                 match ParseAll(s[2..])
                 case None => None
                 case Some(r) => if r.0.Nil? then None else Some((And(r.0), r.1))
               else if s[1] == '|' then
                 match ParseAll(s[2..])
                 case None => None
                 case Some(r) => if r.0.Nil? then None else Some((Or(r.0), r.1))
               else if s[1] == '!' then
                 match ParseFilter(s[2..])
                 case None => None
                 case Some(r) => Some((Not(r.0), r.1))
               else ParseItem(s[1..], ""))
  }

  /** The closing parenthesis. */
  function Close(r: Option<(Filter, string)>): (c: Option<(Filter, string)>)
    ensures c.Some? ==> r.Some? && c.value.0 == r.value.0 && |c.value.1| < |r.value.1|
  {
    match r
    case None => None
    case Some(v) => if v.1 != "" && v.1[0] == ')' then Some((v.0, v.1[1..])) else None
  }

  /** One filter after another, as long as a parenthesis opens. */
  function ParseAll(s: string): (r: Option<(Filters, string)>)
    ensures r.Some? ==> |r.value.1| <= |s|
    decreases |s|, 2
  {
    if s == "" || s[0] != '(' then Some((Nil, s))
    else
      match ParseFilter(s)
      case None => None
      case Some(f) =>
        match ParseAll(f.1)
        case None => None
        case Some(fs) => Some((Cons(f.0, fs.0), fs.1))
  }

  /** The attribute read so far, then its value. */
  function ParseItem(s: string, attr: string): (r: Option<(Filter, string)>)
    ensures r.Some? ==> |r.value.1| <= |s|
    decreases |s|, 0
  {
    if s == "" then None
    else if s[0] == '=' then
      if attr == "" then None
      else
        match ParseValue(s[1..])
        case None => None
        case Some(v) => Some((Item(attr, v.0), v.1))
    else if AttrChar(s[0]) then ParseItem(s[1..], attr + [s[0]])
    else None
  }

  lemma {:induction false} ParseAttr(a: string, read: string, rest: string)
    requires forall c | c in a :: AttrChar(c)
    ensures ParseItem(a + rest, read) == ParseItem(rest, read + a)
  {
    if a == "" {
      assert a + rest == rest && read + a == read;
    } else {
      assert (a + rest)[0] == a[0] && AttrChar(a[0]);
      assert (a + rest)[1..] == a[1..] + rest;
      assert read + [a[0]] + a[1..] == read + a;
      ParseAttr(a[1..], read + [a[0]], rest);
    }
  }

  lemma LastText(t: string, rest: string)
    requires rest != "" && rest[0] == ')'
    ensures ParseValue(EscapeLdap(t) + rest) == Some(([t], rest))
  {
    EscapeLdapIsOneMap(t);
    GlueEscaped(t, rest);
    GlueStart(t, [], rest);
    assert [""] + [] == [""] && [t] + [] == [t];
  }

  lemma EarlierText(t: string, more: string, ts: seq<string>, rest: string)
    requires ts != [] && ParseValue(more) == Some((ts, rest))
    ensures ParseValue(EscapeLdap(t) + ("*" + more)) == Some(([t] + ts, rest))
  {
    EscapeLdapIsOneMap(t);
    GlueEscaped(t, "*" + more);
    GlueStart(t, ts, rest);
  }

  lemma RenderOne(ts: seq<string>)
    requires |ts| == 1
    ensures RenderValue(ts) == EscapeLdap(ts[0]) && ts == [ts[0]]
  {
  }

  lemma RenderMore(ts: seq<string>, rest: string)
    requires |ts| > 1
    ensures RenderValue(ts) + rest == EscapeLdap(ts[0]) + ("*" + (RenderValue(ts[1..]) + rest))
    ensures ts == [ts[0]] + ts[1..]
  {
    Regroup(EscapeLdap(ts[0]), "*", RenderValue(ts[1..]), rest);
  }

  lemma Regroup(a: string, b: string, c: string, d: string)
    ensures a + b + c + d == a + (b + (c + d))
  {
  }

  lemma {:induction false} ParseTexts(ts: seq<string>, rest: string)
    requires ts != [] && rest != "" && rest[0] == ')'
    ensures ParseValue(RenderValue(ts) + rest) == Some((ts, rest))
  {
    if |ts| == 1 {
      LastText(ts[0], rest);
      RenderOne(ts);
    } else {
      var more := RenderValue(ts[1..]) + rest;
      ParseTexts(ts[1..], rest);
      EarlierText(ts[0], more, ts[1..], rest);
      RenderMore(ts, rest);
    }
  }

  lemma ParseRenderedItem(a: string, ts: seq<string>, tail: string)
    requires Attr(a) && ts != [] && tail != "" && tail[0] == ')'
    ensures ParseItem(a + ("=" + (RenderValue(ts) + tail)), "") == Some((Item(a, ts), tail))
  {
    var value := "=" + (RenderValue(ts) + tail);
    ParseAttr(a, "", value);
    assert "" + a == a;
    ParseTexts(ts, tail);
    assert value[1..] == RenderValue(ts) + tail;
  }

  lemma Wrapped(open: string, body: string, rest: string)
    ensures var s := open + body + ")" + rest;
            && |s| > |open| && s[..|open|] == open && s[|open|..] == body + (")" + rest)
            && (")" + rest)[1..] == rest
  {
    var s := open + body + ")" + rest;
    assert s == open + (body + (")" + rest));
  }

  lemma OpenedItem(a: string, value: string, rest: string)
    requires a != ""
    ensures var s := "(" + a + "=" + value + ")" + rest;
            && |s| > 2 && s[0] == '(' && s[1] == a[0]
            && s[1..] == a + ("=" + (value + (")" + rest)))
            && (")" + rest)[1..] == rest
  {
    Wrapped("(", a + "=" + value, rest);
    assert "(" + a + "=" + value == "(" + (a + "=" + value);
    assert a + "=" + value + (")" + rest) == a + ("=" + (value + (")" + rest)));
    var s := "(" + (a + "=" + value) + ")" + rest;
    assert s[1] == s[1..][0];
  }

  /** What a filter's own text looks like after its opening parenthesis. */
  lemma Opened(f: Filter, rest: string)
    requires WellFormed(f)
    ensures var s, tail := Render(f) + rest, ")" + rest;
            && |s| > 2 && s[0] == '(' && tail[1..] == rest
            && match f
               case And(fs) => s[1] == '&' && s[2..] == RenderAll(fs) + tail
               case Or(fs) => s[1] == '|' && s[2..] == RenderAll(fs) + tail
               case Not(g) => s[1] == '!' && s[2..] == Render(g) + tail
               case Item(a, ts) => s[1] == a[0] && s[1..] == a + ("=" + (RenderValue(ts) + tail))
  {
    match f {
      case And(fs) => Wrapped("(&", RenderAll(fs), rest);
      case Or(fs) => Wrapped("(|", RenderAll(fs), rest);
      case Not(g) => Wrapped("(!", Render(g), rest);
      case Item(a, ts) => OpenedItem(a, RenderValue(ts), rest);
    }
  }

  /** Parsing what was rendered gives the filter back, whatever its texts contain. */
  lemma {:induction false} ParseRendered(f: Filter, rest: string)
    requires WellFormed(f)
    ensures ParseFilter(Render(f) + rest) == Some((f, rest))
    decreases f
  {
    Opened(f, rest);
    match f {
      case And(fs) => ParseRenderedAll(fs, ")" + rest);
      case Or(fs) => ParseRenderedAll(fs, ")" + rest);
      case Not(g) => ParseRendered(g, ")" + rest);
      case Item(a, ts) => ParseRenderedItem(a, ts, ")" + rest);
    }
  }

  lemma {:induction false} ParseRenderedAll(fs: Filters, rest: string)
    requires AllWellFormed(fs) && rest != "" && rest[0] == ')'
    ensures ParseAll(RenderAll(fs) + rest) == Some((fs, rest))
    decreases fs
  {
    match fs {
      case Nil =>
        assert RenderAll(fs) + rest == rest;
      case Cons(f, more) =>
        ParseRendered(f, RenderAll(more) + rest);
        ParseRenderedAll(more, rest);
        assert RenderAll(fs) + rest == Render(f) + (RenderAll(more) + rest);
        assert Render(f)[0] == '(';
    }
  }

  // ----- the two searches -----

  /** attribute=*text* */
  function Holds(attr: string, text: string): Filter {
    Item(attr, ["", text, ""])
  }

  function HoldsText(attr: string, safe: string): string {
    "(" + attr + "=*" + safe + "*)"
  }

  function IsText(attr: string, text: string): string {
    "(" + attr + "=" + text + ")"
  }

  function GroupFilter(query: string): string {
    var safe := EscapeLdap(query);
    "(&" + (IsText("objectCategory", "group")
            + ("(|" + (HoldsText("cn", safe) + HoldsText("sAMAccountName", safe)) + ")")) + ")"
  }

  function UserFilter(query: string): string {
    var safe := EscapeLdap(query);
    "(&" + (IsText("objectCategory", "person")
            + (IsText("objectClass", "user")
               + (("(!" + IsText(ACCOUNT_FLAGS, "2") + ")")
                  + ("(|" + (HoldsText("displayName", safe)
                             + (HoldsText("sAMAccountName", safe)
                                + (HoldsText("cn", safe) + HoldsText("mail", safe)))) + ")")))) + ")"
  }

  /** The account control flags, compared bit by bit. */
  const ACCOUNT_FLAGS: string := "userAccountControl:" + BIT_AND + ":"

  const BIT_AND: string := "1.2.840.113556.1.4.803"

  function GroupShape(category: Filter, f: Filter, g: Filter): Filter {
    And(Cons(category, Cons(Or(Cons(f, Cons(g, Nil))), Nil)))
  }

  /** A group whose cn or account name holds the text. */
  function GroupSearch(query: string): Filter {
    GroupShape(Item("objectCategory", ["group"]), Holds("cn", query), Holds("sAMAccountName", query))
  }

  /** A person, not disabled, one of whose names or mail address holds the text. */
  function UserSearch(query: string): Filter {
    And(Cons(Item("objectCategory", ["person"]), Cons(Item("objectClass", ["user"]),
        Cons(Not(Item(ACCOUNT_FLAGS, ["2"])), Cons(UserAny(query), Nil)))))
  }

  /** Text that the escaping leaves alone. */
  predicate Plain(s: string) {
    forall i | 0 <= i < |s| :: EscapeOne(s[i]) == [s[i]]
  }

  lemma {:induction false} PlainText(s: string)
    requires Plain(s)
    ensures MapChars(s, EscapeOne) == s
  {
    if s != "" {
      PlainText(s[1..]);
    }
  }

  lemma PlainItem(attr: string, text: string)
    requires Attr(attr) && Plain(text)
    ensures WellFormed(Item(attr, [text])) && Render(Item(attr, [text])) == IsText(attr, text)
  {
    EscapeLdapIsOneMap(text);
    PlainText(text);
  }

  lemma RenderHolds(attr: string, query: string)
    ensures Render(Holds(attr, query)) == HoldsText(attr, EscapeLdap(query))
  {
    var ts := ["", query, ""];
    EscapeLdapIsOneMap("");
    assert ts[1..] == [query, ""] && ts[1..][1..] == [""];
    assert RenderValue(ts[1..][1..]) == "";
    assert RenderValue(ts[1..]) == EscapeLdap(query) + "*";
    assert RenderValue(ts) == "*" + (EscapeLdap(query) + "*");
  }

  lemma RenderLast(f: Filter)
    ensures RenderAll(Cons(f, Nil)) == Render(f)
    ensures WellFormed(f) ==> AllWellFormed(Cons(f, Nil))
  {
  }

  lemma GroupShapeText(category: Filter, f: Filter, g: Filter)
    requires WellFormed(category) && WellFormed(f) && WellFormed(g)
    ensures WellFormed(GroupShape(category, f, g))
    ensures Render(GroupShape(category, f, g)) ==
            "(&" + (Render(category) + ("(|" + (Render(f) + Render(g)) + ")")) + ")"
  {
    var any := Cons(f, Cons(g, Nil));
    RenderLast(g);
    assert RenderAll(any) == Render(f) + Render(g);
    RenderLast(Or(any));
    assert AllWellFormed(any);
  }

  lemma AnyOfFour(f: Filter, g: Filter, h: Filter, k: Filter)
    requires WellFormed(f) && WellFormed(g) && WellFormed(h) && WellFormed(k)
    ensures WellFormed(Or(Cons(f, Cons(g, Cons(h, Cons(k, Nil))))))
    ensures Render(Or(Cons(f, Cons(g, Cons(h, Cons(k, Nil)))))) ==
            "(|" + (Render(f) + (Render(g) + (Render(h) + Render(k)))) + ")"
  {
    RenderLast(k);
    var hk := Cons(h, Cons(k, Nil));
    assert AllWellFormed(hk) && RenderAll(hk) == Render(h) + Render(k);
    assert AllWellFormed(Cons(g, hk)) && RenderAll(Cons(g, hk)) == Render(g) + RenderAll(hk);
  }

  lemma AllOfFour(f: Filter, g: Filter, h: Filter, k: Filter)
    requires WellFormed(f) && WellFormed(g) && WellFormed(h) && WellFormed(k)
    ensures WellFormed(And(Cons(f, Cons(g, Cons(h, Cons(k, Nil))))))
    ensures Render(And(Cons(f, Cons(g, Cons(h, Cons(k, Nil)))))) ==
            "(&" + (Render(f) + (Render(g) + (Render(h) + Render(k)))) + ")"
  {
    RenderLast(k);
    var hk := Cons(h, Cons(k, Nil));
    assert AllWellFormed(hk) && RenderAll(hk) == Render(h) + Render(k);
    assert AllWellFormed(Cons(g, hk)) && RenderAll(Cons(g, hk)) == Render(g) + RenderAll(hk);
  }

  lemma HoldsWellFormed(attr: string, query: string)
    requires Attr(attr)
    ensures WellFormed(Holds(attr, query))
    ensures Render(Holds(attr, query)) == HoldsText(attr, EscapeLdap(query))
  {
    RenderHolds(attr, query);
  }

  /** A rendered filter read as a whole. */
  lemma ParseWhole(f: Filter, text: string)
    requires WellFormed(f) && Render(f) == text
    ensures ParseFilter(text) == Some((f, ""))
  {
    ParseRendered(f, "");
    assert text + "" == text;
  }

  lemma PlainValues()
    ensures Plain("group") && Plain("person") && Plain("user") && Plain("2")
  {
  }

  lemma SearchNames()
    ensures Attr("cn") && Attr("sAMAccountName") && Attr("displayName") && Attr("mail")
  {
  }

  lemma FlagsPrefix()
    ensures Attr("userAccountControl:") && Attr(":")
  {
  }

  lemma FixedNames()
    ensures Attr("objectCategory") && Attr("objectClass")
  {
  }

  lemma FlagsName()
    ensures Attr(ACCOUNT_FLAGS)
  {
    BitAndName();
    FlagsPrefix();
    AttrConcat("userAccountControl:", BIT_AND);
    AttrConcat("userAccountControl:" + BIT_AND, ":");
  }

  lemma BitAndName()
    ensures Attr(BIT_AND)
  {
  }

  lemma AttrConcat(a: string, b: string)
    requires Attr(a) && Attr(b)
    ensures Attr(a + b)
  {
  }

  /** Whatever the query, the text the group search sends parses to the group search for that query. */
  lemma GroupFilterMeans(query: string)
    ensures ParseFilter(GroupFilter(query)) == Some((GroupSearch(query), ""))
  {
    PlainValues();
    FixedNames();
    SearchNames();
    PlainItem("objectCategory", "group");
    HoldsWellFormed("cn", query);
    HoldsWellFormed("sAMAccountName", query);
    GroupShapeText(Item("objectCategory", ["group"]), Holds("cn", query), Holds("sAMAccountName", query));
    ParseWhole(GroupSearch(query), GroupFilter(query));
  }

  /** The four attributes of the user search. */
  function UserAny(query: string): Filter {
    Or(Cons(Holds("displayName", query), Cons(Holds("sAMAccountName", query),
       Cons(Holds("cn", query), Cons(Holds("mail", query), Nil)))))
  }

  lemma UserAnyText(query: string)
    ensures WellFormed(UserAny(query))
    ensures var safe := EscapeLdap(query);
            Render(UserAny(query)) == "(|" + (HoldsText("displayName", safe)
                             + (HoldsText("sAMAccountName", safe)
                                + (HoldsText("cn", safe) + HoldsText("mail", safe)))) + ")"
  {
    SearchNames();
    HoldsWellFormed("displayName", query);
    HoldsWellFormed("sAMAccountName", query);
    HoldsWellFormed("cn", query);
    HoldsWellFormed("mail", query);
    AnyOfFour(Holds("displayName", query), Holds("sAMAccountName", query), Holds("cn", query), Holds("mail", query));
  }

  /** The fixed parts of the user search. */
  lemma UserFixedText()
    ensures WellFormed(Item("objectCategory", ["person"])) && WellFormed(Item("objectClass", ["user"]))
    ensures WellFormed(Not(Item(ACCOUNT_FLAGS, ["2"])))
    ensures Render(Item("objectCategory", ["person"])) == IsText("objectCategory", "person")
    ensures Render(Item("objectClass", ["user"])) == IsText("objectClass", "user")
    ensures Render(Not(Item(ACCOUNT_FLAGS, ["2"]))) == "(!" + IsText(ACCOUNT_FLAGS, "2") + ")"
  {
    PlainValues();
    FixedNames();
    FlagsName();
    PlainItem("objectCategory", "person");
    PlainItem("objectClass", "user");
    PlainItem(ACCOUNT_FLAGS, "2");
  }

  /** Whatever the query, the text the user search sends parses to the user search for that query. */
  lemma UserFilterMeans(query: string)
    ensures ParseFilter(UserFilter(query)) == Some((UserSearch(query), ""))
  {
    UserFixedText();
    UserAnyText(query);
    AllOfFour(Item("objectCategory", ["person"]), Item("objectClass", ["user"]), Not(Item(ACCOUNT_FLAGS, ["2"])),
              UserAny(query));
    ParseWhole(UserSearch(query), UserFilter(query));
  }
}
