/**
 Splitting the rows of a Teams card over several cards. The size of a card is any function of its
 body; header, rows, titles and trailing elements are any body elements.
 */
module CardSplitter {

  /** An element of a card's body, as its JSON text. */
  type Element = string

  /** Cards finished so far, and the body of the one being filled. */
  datatype Filling = Filling(done: seq<seq<Element>>, current: seq<Element>)

  datatype Layout = Layout(header: seq<Element>, title: Element, lastTitle: Element,
                           size: seq<Element> -> int, limit: int)

  function AddRow(f: Filling, row: Element, lay: Layout): Filling {
    if lay.size(f.current + [row]) > lay.limit && |f.current| > |lay.header| then
      Filling(f.done + [f.current], [lay.title, row])
    else
      f.(current := f.current + [row])
  }

  function Fill(rows: seq<Element>, lay: Layout): Filling {
    if rows == [] then Filling([], lay.header) else AddRow(Fill(rows[..|rows| - 1], lay), rows[|rows| - 1], lay)
  }

  /** The trailing elements do not fit on the last card. */
  predicate Separate(rows: seq<Element>, trailing: seq<Element>, lay: Layout) {
    |trailing| > 0 && lay.size(Fill(rows, lay).current + trailing) > lay.limit
  }

  function Cards(rows: seq<Element>, trailing: seq<Element>, lay: Layout): seq<seq<Element>> {
    var f := Fill(rows, lay);
    if Separate(rows, trailing, lay) then f.done + [f.current, [lay.lastTitle] + trailing]
    else f.done + [f.current + trailing]
  }

  method SplitCardBody(rows: seq<Element>, trailing: seq<Element>, lay: Layout) returns (cards: seq<seq<Element>>)
    ensures cards == Cards(rows, trailing, lay)
  {
    cards := [];
    var current := lay.header;
    for i := 0 to |rows|
      invariant Filling(cards, current) == Fill(rows[..i], lay)
    {
      assert rows[..i + 1][..i] == rows[..i];
      var test := current + [rows[i]];
      if lay.size(test) > lay.limit && |current| > |lay.header| {
        cards := cards + [current];
        current := [lay.title];
      }
      current := current + [rows[i]];
    }
    assert rows[..|rows|] == rows;
    if |trailing| > 0 {
      var test := current + trailing;
      if lay.size(test) <= lay.limit {
        current := current + trailing;
      } else {
        cards := cards + [current];
        current := [lay.lastTitle] + trailing;
      }
    } else {
      assert current + trailing == current;
    }
    cards := cards + [current];
    assert Cards(rows, trailing, lay) == cards;
  }

  // ----- nothing is lost, repeated or reordered -----

  /** What the cards hold beyond the header of the first and the title of every other. */
  function Content(cards: seq<seq<Element>>, header: nat): seq<Element> {
    if cards == [] then []
    else
      var last := cards[|cards| - 1];
      Content(cards[..|cards| - 1], header)
      + if |cards| == 1 then last[if header <= |last| then header else 0..] else last[if |last| > 0 then 1 else 0..]
  }

  /** The first card starts with the header and the others with the continuation title. */
  predicate Titled(cards: seq<seq<Element>>, lay: Layout) {
    cards == [] || (Titled(cards[..|cards| - 1], lay) && Begins(cards[|cards| - 1], |cards| == 1, lay))
  }

  predicate Begins(card: seq<Element>, first: bool, lay: Layout) {
    if first then lay.header <= card else |card| >= 1 && card[0] == lay.title
  }

  /** One more card. */
  lemma NextCard(cards: seq<seq<Element>>, card: seq<Element>, lay: Layout)
    ensures Titled(cards + [card], lay) <==> Titled(cards, lay) && Begins(card, cards == [], lay)
    ensures cards == [] && |lay.header| <= |card| ==> Content(cards + [card], |lay.header|) == card[|lay.header|..]
    ensures cards != [] && |card| >= 1 ==>
              Content(cards + [card], |lay.header|) == Content(cards, |lay.header|) + card[1..]
  {
    assert (cards + [card])[..|cards|] == cards;
  }

  /** Adding elements to the last card adds them to the content, and leaves the titles. */
  lemma LastGrows(cards: seq<seq<Element>>, card: seq<Element>, more: seq<Element>, lay: Layout)
    requires Titled(cards + [card], lay)
    ensures Titled(cards + [card + more], lay)
    ensures Content(cards + [card + more], |lay.header|) == Content(cards + [card], |lay.header|) + more
  {
    NextCard(cards, card, lay);
    NextCard(cards, card + more, lay);
  }

  function All(f: Filling): seq<seq<Element>> {
    f.done + [f.current]
  }

  lemma {:induction false} FillKeeps(rows: seq<Element>, lay: Layout)
    ensures Titled(All(Fill(rows, lay)), lay) && Content(All(Fill(rows, lay)), |lay.header|) == rows
  {
    if rows == [] {
      NextCard([], lay.header, lay);
      assert Titled([], lay);
    } else {
      var f, row := Fill(rows[..|rows| - 1], lay), rows[|rows| - 1];
      FillKeeps(rows[..|rows| - 1], lay);
      assert rows == rows[..|rows| - 1] + [row];
      LastGrows(f.done, f.current, [row], lay);
      NextCard(All(f), [lay.title, row], lay);
    }
  }

  /** Without header and titles the cards are the rows and then the trailing elements, in order. */
  lemma ContentKept(rows: seq<Element>, trailing: seq<Element>, lay: Layout)
    ensures Content(Cards(rows, trailing, lay), |lay.header|) == rows + trailing
    ensures var cards := Cards(rows, trailing, lay);
            if Separate(rows, trailing, lay) then
              |cards| >= 2 && Titled(cards[..|cards| - 1], lay) && cards[|cards| - 1] == [lay.lastTitle] + trailing
            else Titled(cards, lay)
  {
    FillKeeps(rows, lay);
    var f, cards := Fill(rows, lay), Cards(rows, trailing, lay);
    if Separate(rows, trailing, lay) {
      NextCard(All(f), [lay.lastTitle] + trailing, lay);
      assert cards == All(f) + [[lay.lastTitle] + trailing];
      assert cards[..|cards| - 1] == All(f);
    } else {
      LastGrows(f.done, f.current, trailing, lay);
    }
  }

  // ----- sizes -----

  /** A card within the limit, or one that could not have been ended sooner. */
  predicate Fits(card: seq<Element>, lay: Layout) {
    lay.size(card) <= lay.limit || |card| <= (if |lay.header| > 1 then |lay.header| else 1) + 1
  }

  lemma {:induction false} FillFits(rows: seq<Element>, lay: Layout)
    ensures var f := Fill(rows, lay); (forall c | c in f.done :: Fits(c, lay)) && Fits(f.current, lay)
  {
    if rows != [] {
      FillFits(rows[..|rows| - 1], lay);
    }
  }

  /** Every card but a separate trailing one is within the limit, or has at most max(|header|, 1) + 1 elements. */
  lemma CardsFit(rows: seq<Element>, trailing: seq<Element>, lay: Layout)
    ensures var cards := Cards(rows, trailing, lay);
            forall k | 0 <= k < |cards| && !(k == |cards| - 1 && Separate(rows, trailing, lay)) :: Fits(cards[k], lay)
  {
    FillFits(rows, lay);
    var f := Fill(rows, lay);
    if trailing == [] {
      assert f.current + trailing == f.current;
    }
  }

  /** Ending card k was needed: it holds a row, and with the next one it would be over the limit. */
  ghost predicate Needed(cards: seq<seq<Element>>, k: nat, lay: Layout) {
    && k + 1 < |cards| && |cards[k]| > |lay.header| && |cards[k + 1]| >= 2
    && lay.size(cards[k] + [cards[k + 1][1]]) > lay.limit
  }

  lemma {:induction false} FillIsGreedy(rows: seq<Element>, lay: Layout)
    ensures forall k: nat | k < |Fill(rows, lay).done| :: Needed(All(Fill(rows, lay)), k, lay)
  {
    if rows != [] {
      var init, row := rows[..|rows| - 1], rows[|rows| - 1];
      FillIsGreedy(init, lay);
      var f, g := Fill(init, lay), Fill(rows, lay);
      forall k: nat | k < |g.done| ensures Needed(All(g), k, lay) {
        if k < |f.done| {
          assert Needed(All(f), k, lay);
          assert All(f)[k + 1] <= All(g)[k + 1];
          assert All(f)[k] == All(g)[k];
        }
      }
    }
  }

  /** No card is ended early, and the trailing elements get a card of their own only if they do not fit. */
  lemma CardsAreGreedy(rows: seq<Element>, trailing: seq<Element>, lay: Layout)
    ensures var cards := Cards(rows, trailing, lay);
            && |cards| >= 1
            && (forall k: nat | k < |cards| - (if Separate(rows, trailing, lay) then 2 else 1) :: Needed(cards, k, lay))
            && (Separate(rows, trailing, lay) ==> |cards| >= 2 && lay.size(cards[|cards| - 2] + trailing) > lay.limit)
  {
    FillIsGreedy(rows, lay);
    var f, cards := Fill(rows, lay), Cards(rows, trailing, lay);
    forall k: nat | k < |f.done| ensures Needed(cards, k, lay) {
      assert Needed(All(f), k, lay);
      assert All(f)[k] == cards[k];
      assert All(f)[k + 1] <= cards[k + 1];
    }
  }

  ghost predicate NeverShrinks(size: seq<Element> -> int) {
    forall s, t :: size(s) <= size(s + t)
  }

  lemma {:induction false} FillOne(rows: seq<Element>, lay: Layout)
    requires NeverShrinks(lay.size) && lay.size(lay.header + rows) <= lay.limit
    ensures Fill(rows, lay) == Filling([], lay.header + rows)
  {
    if rows == [] {
      assert lay.header + rows == lay.header;
    } else {
      var init, row := rows[..|rows| - 1], rows[|rows| - 1];
      assert lay.header + rows == (lay.header + init) + [row];
      FillOne(init, lay);
    }
  }

  /** If everything fits on one card there is one card, as long as adding elements never makes a card smaller. */
  lemma OneCard(rows: seq<Element>, trailing: seq<Element>, lay: Layout)
    requires NeverShrinks(lay.size)
    ensures lay.size(lay.header + rows + trailing) <= lay.limit ==>
              Cards(rows, trailing, lay) == [lay.header + rows + trailing]
  {
    if lay.size(lay.header + rows + trailing) <= lay.limit {
      assert lay.size(lay.header + rows) <= lay.size(lay.header + rows + trailing);
      FillOne(rows, lay);
    }
  }
}
