// The response summary of the normalised-range report: for every question
// (column) a histogram of the answers given, and a panel per question that
// lists each answer with its count and a TOTAL row.
module ResponseSummary {
  import opened Wrappers
  import opened Table
  import opened Sums

  /** One change-list item as its (column name, new value) pairs, in the order item.forEach visits them. */
  type Item = seq<(string, string)>

  /** All (column, value) pairs, item after item. */
  function Answers(items: seq<Item>): seq<(string, string)>
  {
    if items == [] then [] else Answers(items[..|items| - 1]) + items[|items| - 1]
  }

  /** The answers given to one column, each as a histogram entry of weight one. */
  function ColumnAnswers(ps: seq<(string, string)>, col: string): seq<(string, int)>
  {
    if ps == [] then []
    else
      var init := ColumnAnswers(ps[..|ps| - 1], col);
      if ps[|ps| - 1].0 == col then init + [(ps[|ps| - 1].1, 1)] else init
  }

  function Columns(ps: seq<(string, string)>): set<string>
  {
    set i | 0 <= i < |ps| :: ps[i].0
  }

  /**
   * The histograms after visiting ps: a histogram per column, created on its
   * first answer; every answer adds one to its value's count.
   */
  function Histograms(ps: seq<(string, string)>): map<string, map<string, int>>
  {
    if ps == [] then map[]
    else
      var m := Histograms(ps[..|ps| - 1]);
      var (col, val) := ps[|ps| - 1];
      m[col := Bump(if col in m then m[col] else map[], val, 1)]
  }

  lemma HistogramsSnoc(ps: seq<(string, string)>, col: string, val: string)
    ensures var m := Histograms(ps);
      Histograms(ps + [(col, val)]) == m[col := Bump(if col in m then m[col] else map[], val, 1)]
  {
    assert (ps + [(col, val)])[..|ps|] == ps;
  }

  /** There is a histogram for exactly the columns answered, and each is the tally of that column's answers. */
  lemma {:induction false} HistogramsTally(ps: seq<(string, string)>)
    ensures Histograms(ps).Keys == Columns(ps)
    ensures forall col :: col in Histograms(ps) ==> Histograms(ps)[col] == Tally(ColumnAnswers(ps, col))
  {
    if ps != [] {
      var init := ps[..|ps| - 1];
      HistogramsTally(init);
      ColumnsSnoc(ps);
      var c := ps[|ps| - 1].0;
      if c !in Histograms(init) {
        ColumnAnswersEmpty(init, c);
      }
      var h, h' := Histograms(init), Histograms(ps);
      forall col | col in h' ensures h'[col] == Tally(ColumnAnswers(ps, col)) {
        TallyStep(ps, col);
      }
    }
  }

  lemma ColumnsSnoc(ps: seq<(string, string)>)
    requires ps != []
    ensures Columns(ps) == Columns(ps[..|ps| - 1]) + {ps[|ps| - 1].0}
  {
    var init := ps[..|ps| - 1];
    forall x | x in Columns(ps) ensures x in Columns(init) + {ps[|ps| - 1].0} {
      var i :| 0 <= i < |ps| && ps[i].0 == x;
      if i < |init| {
        assert init[i] == ps[i];
      }
    }
    forall x | x in Columns(init) ensures x in Columns(ps) {
      var i :| 0 <= i < |init| && init[i].0 == x;
      assert ps[i] == init[i];
    }
  }

  /** The last answer bumps its column's tally by one and leaves the other columns' tallies alone. */
  lemma TallyStep(ps: seq<(string, string)>, col: string)
    requires ps != []
    ensures var init := ps[..|ps| - 1];
      var (c, v) := ps[|ps| - 1];
      Tally(ColumnAnswers(ps, col))
        == if col == c then Bump(Tally(ColumnAnswers(init, col)), v, 1) else Tally(ColumnAnswers(init, col))
  {
    var init := ps[..|ps| - 1];
    var (c, v) := ps[|ps| - 1];
    if col == c {
      var xs := ColumnAnswers(init, col) + [(v, 1)];
      assert xs[..|xs| - 1] == ColumnAnswers(init, col);
    }
  }

  lemma {:induction false} ColumnAnswersEmpty(ps: seq<(string, string)>, col: string)
    requires col !in Columns(ps)
    ensures ColumnAnswers(ps, col) == []
  {
    if ps != [] {
      var init := ps[..|ps| - 1];
      assert Columns(init) <= Columns(ps) by {
        forall x | x in Columns(init) ensures x in Columns(ps) {
          var i :| 0 <= i < |init| && init[i].0 == x;
          assert ps[i] == init[i];
        }
      }
      ColumnAnswersEmpty(init, col);
      assert ps[|ps| - 1].0 in Columns(ps);
    }
  }

  /** The weight of a value among a column's answers is the number of times that answer occurs. */
  lemma {:induction false} WeightIsOccurrences(ps: seq<(string, string)>, col: string, val: string)
    ensures Weight(ColumnAnswers(ps, col), val) == multiset(ps)[(col, val)]
  {
    if ps != [] {
      var init := ps[..|ps| - 1];
      WeightIsOccurrences(init, col, val);
      assert ps == init + [ps[|ps| - 1]];
      var ca := ColumnAnswers(init, col);
      if ps[|ps| - 1].0 == col {
        assert (ca + [(ps[|ps| - 1].1, 1)])[..|ca|] == ca;
      }
    }
  }

  /**
   * counts[col][val] is the number of times column col was answered val, and
   * only answers that occurred have a count, which is then at least 1.
   */
  lemma CountsAreOccurrences(ps: seq<(string, string)>, col: string)
    requires col in Histograms(ps)
    ensures forall val :: Get0(Histograms(ps)[col], val) == multiset(ps)[(col, val)]
    ensures forall val :: val in Histograms(ps)[col] ==> Histograms(ps)[col][val] >= 1
  {
    HistogramsTally(ps);
    forall val ensures Get0(Histograms(ps)[col], val) == multiset(ps)[(col, val)] {
      TallyIsWeight(ColumnAnswers(ps, col), val);
      WeightIsOccurrences(ps, col, val);
    }
    OnesArePositive(ps, col);
    TallyPositive(ColumnAnswers(ps, col));
  }

  lemma {:induction false} OnesArePositive(ps: seq<(string, string)>, col: string)
    ensures forall i :: 0 <= i < |ColumnAnswers(ps, col)| ==> ColumnAnswers(ps, col)[i].1 == 1
    ensures Total(ColumnAnswers(ps, col)) == |ColumnAnswers(ps, col)|
  {
    if ps != [] {
      OnesArePositive(ps[..|ps| - 1], col);
      var ca := ColumnAnswers(ps[..|ps| - 1], col);
      if ps[|ps| - 1].0 == col {
        assert (ca + [(ps[|ps| - 1].1, 1)])[..|ca|] == ca;
      }
    }
  }

  /** The number of answers to a column. */
  lemma {:induction false} ColumnAnswersCount(ps: seq<(string, string)>, col: string)
    ensures |ColumnAnswers(ps, col)| == |set i | 0 <= i < |ps| && ps[i].0 == col|
  {
    if ps != [] {
      var init := ps[..|ps| - 1];
      ColumnAnswersCount(init, col);
      var a := set i | 0 <= i < |init| && init[i].0 == col;
      var b := set i | 0 <= i < |ps| && ps[i].0 == col;
      if ps[|ps| - 1].0 == col {
        assert b == a + {|ps| - 1};
      } else {
        assert b == a;
      }
    }
  }

  /**
   * A panel's TOTAL: summing a column's counts over its answers, in any
   * order that lists each answer once, gives the number of times the column
   * was answered.
   */
  lemma PanelTotalCountsAnswers(ps: seq<(string, string)>, col: string, order: seq<string>)
    requires col in Histograms(ps)
    requires Distinct(order) && forall a :: a in order <==> a in Histograms(ps)[col]
    ensures SumOver(Histograms(ps)[col], order) == |set i | 0 <= i < |ps| && ps[i].0 == col|
  {
    HistogramsTally(ps);
    TallyKeys(ColumnAnswers(ps, col));
    TallySum(ColumnAnswers(ps, col), order);
    OnesArePositive(ps, col);
    ColumnAnswersCount(ps, col);
  }

  /** A Responses: the histogram of one column. */
  class Responses {
    const name: string
    var counts: map<string, int>

    constructor(name: string)
      ensures this.name == name && counts == map[]
    {
      this.name := name;
      counts := map[];
    }
  }

  /** The Responses objects hold exactly the histograms, each under its own column name. */
  ghost predicate Mirrors(d: map<string, Responses>, hs: map<string, map<string, int>>)
    reads set col | col in d :: d[col]
  {
    d.Keys == hs.Keys && forall col :: col in d ==> d[col].name == col && d[col].counts == hs[col]
  }

  /** The body of the inner forEach: count one answer. */
  method Count(d: map<string, Responses>, columnName: string, newValue: string, ghost ps: seq<(string, string)>)
    returns (d': map<string, Responses>)
    requires Mirrors(d, Histograms(ps))
    modifies set col | col in d :: d[col]
    ensures Mirrors(d', Histograms(ps + [(columnName, newValue)]))
    ensures forall col :: col in d' ==> (col in d && d'[col] == d[col]) || fresh(d'[col])
  {
    ghost var hs := Histograms(ps);
    ghost var hs' := Histograms(ps + [(columnName, newValue)]);
    HistogramsSnoc(ps, columnName, newValue);
    var response: Responses;
    if columnName in d {
      response := d[columnName];
      d' := d;
    } else {
      response := new Responses(columnName);
      d' := d[columnName := response];
    }
    var c := Get(response.counts, newValue);
    var n := if c.None? || c.value == 0 then 0 else c.value;
    n := n + 1;
    response.counts := response.counts[newValue := n];
    assert response.counts == hs'[columnName];
    forall col | col in d' && col != columnName ensures d'[col].counts == hs'[col] {
      assert d'[col] == d[col] && d[col].name != response.name;
    }
    assert Mirrors(d', hs');
  }

  lemma AnswersStep(items: seq<Item>, item: Item, j: nat)
    requires j < |item|
    ensures Answers(items) + item[..j + 1] == Answers(items) + item[..j] + [item[j]]
  {
    assert item[..j + 1] == item[..j] + [item[j]];
  }

  /** The inner forEach over the pairs of item i. */
  method CountItem(d: map<string, Responses>, items: seq<Item>, i: int)
    returns (d': map<string, Responses>)
    requires 0 <= i < |items|
    requires Mirrors(d, Histograms(Answers(items[..i])))
    modifies set col | col in d :: d[col]
    ensures Mirrors(d', Histograms(Answers(items[..i + 1])))
    ensures forall col :: col in d' ==> (col in d && d'[col] == d[col]) || fresh(d'[col])
  {
    var item := items[i];
    d' := d;
    ghost var start := Answers(items[..i]);
    assert start + item[..0] == start;
    var j := 0;
    while j < |item|
      invariant 0 <= j <= |item|
      invariant forall col :: col in d' ==> (col in d && d'[col] == d[col]) || fresh(d'[col])
      invariant Mirrors(d', Histograms(start + item[..j]))
    {
      AnswersStep(items[..i], item, j);
      d' := Count(d', item[j].0, item[j].1, start + item[..j]);
      j := j + 1;
    }
    assert item[..j] == item;
    AnswersPrefix(items, i);
  }

  lemma AnswersPrefix(items: seq<Item>, i: int)
    requires 0 <= i < |items|
    ensures Answers(items[..i + 1]) == Answers(items[..i]) + items[i]
  {
    assert items[..i + 1] == items[..i] + [items[i]];
    AnswersSnoc(items[..i], items[i]);
  }

  lemma AnswersSnoc(items: seq<Item>, item: Item)
    ensures Answers(items + [item]) == Answers(items) + item
  {
    assert (items + [item])[..|items|] == items;
  }

  /**
   * Responses.Build: a Responses per column answered, holding the histogram
   * of that column's answers.
   */
  method Build(items: seq<Item>) returns (d: map<string, Responses>)
    ensures forall col :: col in d ==> fresh(d[col])
    ensures Mirrors(d, Histograms(Answers(items)))
  {
    d := map[];
    var i := 0;
    while i < |items|
      invariant 0 <= i <= |items|
      invariant forall col :: col in d ==> fresh(d[col])
      invariant Mirrors(d, Histograms(Answers(items[..i])))
    {
      d := CountItem(d, items, i);
      i := i + 1;
    }
    assert items[..i] == items;
  }

  /** The rows of a panel: an Answer and its Count, per answer in the given order. */
  function PanelRows(counts: map<string, int>, order: seq<string>): (rows: seq<Row>)
    ensures |rows| == |order|
    ensures forall i :: 0 <= i < |order| ==> rows[i] == [Field("Answer", Str(order[i])), Field("Count", Num(Get0(counts, order[i]) as real))]
  {
    seq(|order|, i requires 0 <= i < |order| => [Field("Answer", Str(order[i])), Field("Count", Num(Get0(counts, order[i]) as real))])
  }

  function PanelTotalRow(total: int): Row
  {
    [Field("Answer", Str("TOTAL")), Field("Count", Num(total as real))]
  }

  /**
   * One response panel: a row per answer, in the dictionary's (unspecified)
   * order, then the TOTAL row with the sum of the counts.
   */
  method RenderPanel(response: Responses) returns (tw: TableWriter, ghost order: seq<string>, total: int)
    ensures fresh(tw) && tw.Valid() && tw.explicit == None
    ensures Distinct(order) && forall a :: a in order <==> a in response.counts
    ensures total == SumOver(response.counts, order)
    ensures tw.written == PanelRows(response.counts, order) + [PanelTotalRow(total)]
  {
    var counts := response.counts;
    tw := new TableWriter(None);
    total := 0;
    order := [];
    var rest := counts.Keys;
    while rest != {}
      invariant fresh(tw) && tw.Valid() && tw.explicit == None
      invariant rest <= counts.Keys
      invariant Distinct(order) && forall a :: a in order <==> a in counts && a !in rest
      invariant total == SumOver(counts, order)
      invariant tw.written == PanelRows(counts, order)
      decreases rest
    {
      var answer :| answer in rest;
      var count := counts[answer];
      var row := [Field("Answer", Str(answer)), Field("Count", Num(count as real))];
      total := total + count;
      tw.WriteRow(row);
      SumOverAppend(counts, order, [answer]);
      assert [answer][1..] == [];
      assert PanelRows(counts, order + [answer]) == PanelRows(counts, order) + [row];
      order := order + [answer];
      rest := rest - {answer};
    }
    tw.WriteRow(PanelTotalRow(total));
  }

  /** The number of times column col was answered. */
  function AnswerCount(ps: seq<(string, string)>, col: string): nat
  {
    |set i | 0 <= i < |ps| && ps[i].0 == col|
  }

  /** tw holds the panel of a histogram: its answers in the given order with their counts, then the TOTAL row. */
  ghost predicate ShowsPanel(tw: TableWriter, hist: map<string, int>, order: seq<string>, total: int)
    reads tw
  {
    tw.Valid() && tw.explicit == None
    && Distinct(order) && (forall a :: a in order <==> a in hist)
    && tw.written == PanelRows(hist, order) + [PanelTotalRow(total)]
  }

  /**
   * The response summary of ShowNDeltaRange.render: a panel per column
   * answered, in the dictionary's (unspecified) order, each listing that
   * column's answers with their counts and a TOTAL row holding the number of
   * answers to the column.
   */
  method RenderResponseSummary(items: seq<Item>)
    returns (headings: seq<string>, panels: seq<TableWriter>, ghost orders: seq<seq<string>>)
    ensures Distinct(headings) && forall col :: col in headings <==> col in Histograms(Answers(items))
    ensures |panels| == |headings| && |orders| == |headings|
    ensures forall i :: 0 <= i < |headings| ==>
      fresh(panels[i]) && ShowsPanel(panels[i], Histograms(Answers(items))[headings[i]], orders[i], AnswerCount(Answers(items), headings[i]))
  {
    var d := Build(items);
    ghost var ps := Answers(items);
    ghost var hs := Histograms(ps);
    headings, panels, orders := [], [], [];
    var rest := d.Keys;
    while rest != {}
      invariant rest <= d.Keys
      invariant Mirrors(d, hs)
      invariant Distinct(headings) && forall col :: col in headings <==> col in d && col !in rest
      invariant |panels| == |headings| && |orders| == |headings|
      invariant forall i :: 0 <= i < |headings| ==>
        fresh(panels[i]) && ShowsPanel(panels[i], hs[headings[i]], orders[i], AnswerCount(ps, headings[i]))
      decreases rest
    {
      var columnName :| columnName in rest;
      var response := d[columnName];
      var tw, order, total := RenderPanel(response);
      PanelTotalCountsAnswers(ps, columnName, order);
      assert ShowsPanel(tw, hs[columnName], order, AnswerCount(ps, columnName));
      headings := headings + [columnName];
      panels := panels + [tw];
      orders := orders + [order];
      rest := rest - {columnName};
    }
  }
}
