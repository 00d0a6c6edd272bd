/** What a response claims: merging the stated specs line by line, over lines already tokenised. */
module Claims {
  import opened Basics

  type Sku = string

  /** Prices in cents and weights in tenths of a pound, as stated. */
  datatype Specs = Specs(price: Option<real>, ram: Option<int>, weight: Option<real>, battery: Option<int>)

  /** One line of the response: the SKUs it cites, in order, and the specs it states. */
  datatype Line = Line(skus: seq<Sku>, specs: Specs)

  datatype ParsedRec = ParsedRec(sku: Sku, specs: Specs)

  const NOTHING: Specs := Specs(None, None, None, None)

  function OrElse<T>(a: Option<T>, b: Option<T>): Option<T> {
    if a.Some? then a else b
  }

  /** Fill in what has not been stated yet. */
  function Backfill(known: Specs, more: Specs): Specs {
    Specs(OrElse(known.price, more.price), OrElse(known.ram, more.ram),
          OrElse(known.weight, more.weight), OrElse(known.battery, more.battery))
  }

  // ------------------------------------------------------------ the simple specification

  /** Every citation, in reading order. */
  function Citations(lines: seq<Line>): seq<Sku> {
    if lines == [] then [] else Citations(lines[..|lines| - 1]) + lines[|lines| - 1].skus
  }

  /** The first occurrence of each element. */
  function FirstSeen(s: seq<Sku>): seq<Sku> {
    if s == [] then []
    else
      var n := |s| - 1;
      FirstSeen(s[..n]) + (if s[n] in s[..n] then [] else [s[n]])
  }

  /** The first stated value among the lines that cite the SKU: some such line states it, none before does. */
  ghost predicate FirstStated<T>(lines: seq<Line>, sku: Sku, field: Specs -> Option<T>, v: Option<T>) {
    match v
    case None => forall k :: 0 <= k < |lines| && sku in lines[k].skus ==> field(lines[k].specs) == None
    case Some(_) =>
      exists k :: 0 <= k < |lines| && sku in lines[k].skus && field(lines[k].specs) == v
        && forall j :: 0 <= j < k && sku in lines[j].skus ==> field(lines[j].specs) == None
  }

  ghost predicate FirstStatedSpecs(lines: seq<Line>, sku: Sku, specs: Specs) {
    && FirstStated(lines, sku, (s: Specs) => s.price, specs.price)
    && FirstStated(lines, sku, (s: Specs) => s.ram, specs.ram)
    && FirstStated(lines, sku, (s: Specs) => s.weight, specs.weight)
    && FirstStated(lines, sku, (s: Specs) => s.battery, specs.battery)
  }

  function Skus(recs: seq<ParsedRec>): seq<Sku> {
    seq(|recs|, i requires 0 <= i < |recs| => recs[i].sku)
  }

  // ------------------------------------------------------------ the merge

  /** The specs merged for a SKU from all lines. */
  function Merged(lines: seq<Line>, sku: Sku): Specs {
    if lines == [] then NOTHING
    else
      var n := |lines| - 1;
      if sku in lines[n].skus then Backfill(Merged(lines[..n], sku), lines[n].specs)
      else Merged(lines[..n], sku)
  }

  method ParseResponse(lines: seq<Line>) returns (recs: seq<ParsedRec>)
    ensures Skus(recs) == FirstSeen(Citations(lines))
    ensures forall i :: 0 <= i < |recs| ==> FirstStatedSpecs(lines, recs[i].sku, recs[i].specs)
  {
    var merged: map<Sku, Specs> := map[];
    var order: seq<Sku> := [];
    for k := 0 to |lines|
      invariant order == FirstSeen(Citations(lines[..k]))
      invariant merged.Keys == Elements(order)
      invariant forall s :: s in merged ==> merged[s] == Merged(lines[..k], s)
      invariant forall s :: s !in merged ==> Merged(lines[..k], s) == NOTHING
    {
      var line := lines[k];
      LastLine(lines, k);
      assert Citations(lines[..k]) + line.skus[..0] == Citations(lines[..k]);
      assert line.skus[..|line.skus|] == line.skus;
      merged, order := MergeLine(lines[..k], line, merged, order);
    }
    assert lines[..|lines|] == lines;
    forall i | 0 <= i < |order| ensures order[i] in merged {
      assert order[i] in Elements(order);
    }
    recs := seq(|order|, i requires 0 <= i < |order| => ParsedRec(order[i], merged[order[i]]));
    assert Skus(recs) == order;
    forall i | 0 <= i < |recs| ensures FirstStatedSpecs(lines, recs[i].sku, recs[i].specs) {
      MergedIsFirstStated(lines, recs[i].sku);
    }
  }

  /** The dict and the order list after all lines before, and m SKUs of this line. */
  ghost predicate MergedSoFar(before: seq<Line>, line: Line, m: nat, merged: map<Sku, Specs>, order: seq<Sku>)
    requires m <= |line.skus|
  {
    && order == FirstSeen(Citations(before) + line.skus[..m])
    && merged.Keys == Elements(order)
    && (forall s :: s in merged ==>
          merged[s] == if s in line.skus[..m] then Backfill(Merged(before, s), line.specs) else Merged(before, s))
    && (forall s :: s !in merged ==> s !in line.skus[..m] && Merged(before, s) == NOTHING)
  }

  /** One line: a new SKU gets the line's specs, a known one is backfilled in place. */
  method MergeLine(before: seq<Line>, line: Line, merged0: map<Sku, Specs>, order0: seq<Sku>)
    returns (merged: map<Sku, Specs>, order: seq<Sku>)
    requires MergedSoFar(before, line, 0, merged0, order0)
    ensures MergedSoFar(before, line, |line.skus|, merged, order)
  {
    merged, order := merged0, order0;
    for m := 0 to |line.skus|
      invariant MergedSoFar(before, line, m, merged, order)
    {
      var sku := line.skus[m];
      if sku !in merged {
        MergeNew(before, line, m, merged, order);
        merged := merged[sku := line.specs];
        order := order + [sku];
      } else {
        MergeKnown(before, line, m, merged, order);
        merged := merged[sku := Backfill(merged[sku], line.specs)];
      }
    }
  }

  lemma MergeNew(before: seq<Line>, line: Line, m: nat, merged: map<Sku, Specs>, order: seq<Sku>)
    requires m < |line.skus| && MergedSoFar(before, line, m, merged, order)
    requires line.skus[m] !in merged
    ensures MergedSoFar(before, line, m + 1, merged[line.skus[m] := line.specs], order + [line.skus[m]])
  {
    hide FirstSeen, Citations, Merged;
    var sku := line.skus[m];
    NextCitation(Citations(before), line.skus, m);
    OneMore(line.skus, m);
    assert Elements(order + [sku]) == Elements(order) + {sku};
    var merged' := merged[sku := line.specs];
    forall s | s in merged'
      ensures merged'[s] == if s in line.skus[..m + 1] then Backfill(Merged(before, s), line.specs)
                            else Merged(before, s)
    {
      if s == sku {
        assert Merged(before, s) == NOTHING;
      }
    }
  }

  lemma MergeKnown(before: seq<Line>, line: Line, m: nat, merged: map<Sku, Specs>, order: seq<Sku>)
    requires m < |line.skus| && MergedSoFar(before, line, m, merged, order)
    requires line.skus[m] in merged
    ensures MergedSoFar(before, line, m + 1,
                        merged[line.skus[m] := Backfill(merged[line.skus[m]], line.specs)], order)
  {
    hide FirstSeen, Citations, Merged;
    var sku := line.skus[m];
    NextCitation(Citations(before), line.skus, m);
    OneMore(line.skus, m);
    assert order + [] == order;
  }

  lemma OneMore(skus: seq<Sku>, m: nat)
    requires m < |skus|
    ensures forall s :: s in skus[..m + 1] <==> s in skus[..m] || s == skus[m]
  {
    assert skus[..m + 1] == skus[..m] + [skus[m]];
  }

  lemma NextCitation(cited: seq<Sku>, skus: seq<Sku>, m: nat)
    requires m < |skus|
    ensures FirstSeen(cited + skus[..m + 1])
         == FirstSeen(cited + skus[..m])
            + (if skus[m] in Elements(FirstSeen(cited + skus[..m])) then [] else [skus[m]])
  {
    var s := cited + skus[..m + 1];
    assert s[..|s| - 1] == cited + skus[..m];
    SameElements(cited + skus[..m]);
  }

  lemma LastLine(lines: seq<Line>, k: nat)
    requires k < |lines|
    ensures lines[..k + 1][..k] == lines[..k]
    ensures Citations(lines[..k + 1]) == Citations(lines[..k]) + lines[k].skus
    ensures forall s :: Merged(lines[..k + 1], s)
                     == if s in lines[k].skus then Backfill(Merged(lines[..k], s), lines[k].specs)
                        else Merged(lines[..k], s)
  {
    assert lines[..k + 1][..k] == lines[..k];
  }

  lemma {:induction false} SameElements(s: seq<Sku>)
    ensures Elements(FirstSeen(s)) == Elements(s)
  {
    if s != [] {
      var n := |s| - 1;
      SameElements(s[..n]);
      assert s == s[..n] + [s[n]];
      assert Elements(s) == Elements(s[..n]) + {s[n]};
      assert s[n] in s[..n] <==> s[n] in Elements(s[..n]);
    }
  }

  /** Each claimed SKU is listed exactly once. */
  lemma {:induction false} FirstSeenOnce(s: seq<Sku>)
    ensures forall i, j :: 0 <= i < j < |FirstSeen(s)| ==> FirstSeen(s)[i] != FirstSeen(s)[j]
    ensures forall x :: x in FirstSeen(s) <==> x in s
  {
    SameElements(s);
    assert forall x :: x in FirstSeen(s) <==> x in Elements(FirstSeen(s));
    if s != [] {
      var n := |s| - 1;
      FirstSeenOnce(s[..n]);
    }
  }

  /** x occurs in s at i and not before. */
  ghost predicate FirstAt(s: seq<Sku>, x: Sku, i: nat) {
    i < |s| && s[i] == x && x !in s[..i]
  }

  /** The list follows the order of first citation. */
  lemma {:induction false} FirstSeenInOrder(s: seq<Sku>, a: nat, b: nat, i: nat, j: nat)
    requires a < b < |FirstSeen(s)|
    requires FirstAt(s, FirstSeen(s)[a], i) && FirstAt(s, FirstSeen(s)[b], j)
    ensures i < j
  {
    var n := |s| - 1;
    var early := FirstSeen(s[..n]);
    FirstSeenOnce(s[..n]);
    if b < |early| {
      assert early[a] in s[..n] && early[b] in s[..n];
      StaysFirst(s, n, early[a], i);
      StaysFirst(s, n, early[b], j);
      FirstSeenInOrder(s[..n], a, b, i, j);
    } else {
      assert early[a] in s[..n];
      StaysFirst(s, n, early[a], i);
      assert j < n ==> s[j] in s[..n];
    }
  }

  lemma StaysFirst(s: seq<Sku>, n: nat, x: Sku, i: nat)
    requires n <= |s| && x in s[..n] && FirstAt(s, x, i)
    ensures FirstAt(s[..n], x, i)
  {
    var k :| 0 <= k < n && s[..n][k] == x;
    assert i <= k;
    assert i < n ==> s[..n][..i] == s[..i];
  }

  lemma {:induction false} MergedField<T>(lines: seq<Line>, sku: Sku, field: Specs -> Option<T>,
                                          v: Option<T>, more: Option<T>)
    requires lines != []
    requires more == field(lines[|lines| - 1].specs)
    requires FirstStated(lines[..|lines| - 1], sku, field, v)
    ensures FirstStated(lines, sku, field, if sku in lines[|lines| - 1].skus then OrElse(v, more) else v)
  {
    var n := |lines| - 1;
    var w := if sku in lines[n].skus then OrElse(v, more) else v;
    if v.Some? {
      var k :| 0 <= k < |lines[..n]| && sku in lines[..n][k].skus && field(lines[..n][k].specs) == v
               && forall j :: 0 <= j < k && sku in lines[..n][j].skus ==> field(lines[..n][j].specs) == None;
      assert lines[k] == lines[..n][k];
      forall j | 0 <= j < k && sku in lines[j].skus ensures field(lines[j].specs) == None {
        assert lines[j] == lines[..n][j];
      }
    } else {
      forall j | 0 <= j < n && sku in lines[j].skus ensures field(lines[j].specs) == None {
        assert lines[j] == lines[..n][j];
      }
      if w.Some? {
        assert 0 <= n < |lines| && sku in lines[n].skus && field(lines[n].specs) == w;
      }
    }
  }

  /** The merge keeps, field by field, the first value stated for the SKU. */
  lemma {:induction false} MergedIsFirstStated(lines: seq<Line>, sku: Sku)
    ensures FirstStatedSpecs(lines, sku, Merged(lines, sku))
  {
    if lines != [] {
      var n := |lines| - 1;
      MergedIsFirstStated(lines[..n], sku);
      var m, more := Merged(lines[..n], sku), lines[n].specs;
      MergedField(lines, sku, (s: Specs) => s.price, m.price, more.price);
      MergedField(lines, sku, (s: Specs) => s.ram, m.ram, more.ram);
      MergedField(lines, sku, (s: Specs) => s.weight, m.weight, more.weight);
      MergedField(lines, sku, (s: Specs) => s.battery, m.battery, more.battery);
    }
  }

  /** Reading order: line by line, and within a line as cited. */
  lemma {:induction false} CitationsSplit(lines: seq<Line>, k: nat)
    requires k < |lines|
    ensures Citations(lines) == Citations(lines[..k]) + lines[k].skus + Citations(lines[k + 1..])
    decreases |lines|
  {
    var n := |lines| - 1;
    if k < n {
      CitationsSplit(lines[..n], k);
      assert lines[..n][..k] == lines[..k] && lines[..n][k + 1..] == lines[k + 1..][..n - k - 1];
      assert lines[k + 1..][n - k - 1] == lines[n];
    } else {
      assert lines[k + 1..] == [];
    }
  }

  /** The claims are those of the SKUs that some line cites. */
  lemma {:induction false} CitedIff(lines: seq<Line>, sku: Sku)
    ensures sku in FirstSeen(Citations(lines)) <==> exists k :: 0 <= k < |lines| && sku in lines[k].skus
  {
    FirstSeenOnce(Citations(lines));
    if k :| 0 <= k < |lines| && sku in lines[k].skus {
      CitationsSplit(lines, k);
    }
    if lines != [] && sku in Citations(lines) {
      var n := |lines| - 1;
      if sku in Citations(lines[..n]) {
        CitedIff(lines[..n], sku);
        FirstSeenOnce(Citations(lines[..n]));
        var k :| 0 <= k < n && sku in lines[..n][k].skus;
        assert lines[k] == lines[..n][k];
      }
    }
  }
}
