/** The purchase coordinator (`buy_items`): lines are applied one at a time,
    in order, as adjustments by `-qty`; the first refused line ends the
    purchase and earlier lines stay applied. */
module Purchase {
  import opened Ledger

  /** One requested line, `{"id": ..., "qty": ...}`. */
  datatype Line = Line(id: Id, qty: int)

  /** `{"success": True, "total_price": ...}`, or the refused line's own
      adjustment response passed through unchanged. */
  datatype BuyResponse = Bought(totalPrice: int) | Refused(failure: AdjustResponse)

  /** Where the loop stands after a prefix of the lines. */
  datatype Progress =
    | Running(store: Store, total: int)
    | Stopped(store: Store, failure: AdjustResponse)

  /** One iteration of the loop of `buy_items`: a running purchase applies
      the line as an adjustment by `-qty` and either goes on with price × qty
      added to the total or stops with the line's response; a stopped one
      stays stopped. */
  function Step(p: Progress, line: Line): Progress {
    match p
    case Stopped(st, failure) => Stopped(st, failure)
    case Running(st, total) =>
      var a := Adjust(st, line.id, -line.qty);
      if a.response.Success() then Running(a.store, total + a.response.item.price * line.qty)
      else Stopped(a.store, a.response)
  }

  /** The loop of `buy_items` run over `lines`, defined on the last line so
      that it follows the loop's prefix order. */
  function Process(s: Store, lines: seq<Line>): Progress
    decreases |lines|
  {
    if lines == [] then Running(s, 0)
    else Step(Process(s, lines[..|lines| - 1]), lines[|lines| - 1])
  }

  /** The response `buy_items` returns for the whole list. */
  function Outcome(p: Progress): BuyResponse {
    match p
    case Running(_, total) => Bought(total)
    case Stopped(_, failure) => Refused(failure)
  }

  /** Total quantity the lines ask of item `id`. */
  function Demand(lines: seq<Line>, id: Id): int {
    if lines == [] then 0
    else Demand(lines[..|lines| - 1], id) + (if lines[|lines| - 1].id == id then lines[|lines| - 1].qty else 0)
  }

  /** Sum over the lines of price × qty, prices taken from `s`. */
  function Cost(s: Store, lines: seq<Line>): int {
    if lines == [] then 0
    else
      var last := lines[|lines| - 1];
      Cost(s, lines[..|lines| - 1]) + (if last.id in s then s[last.id].price * last.qty else 0)
  }

  /** `s` with every item's quantity reduced by what the lines ask of it. */
  function Debited(s: Store, lines: seq<Line>): Store {
    map k | k in s :: s[k].(qty := s[k].qty - Demand(lines, k))
  }

  /** Line j can be served once lines 0..j-1 have been: its item exists and
      the quantity left after it is not negative. */
  predicate Servable(s: Store, lines: seq<Line>, j: nat)
    requires j < |lines|
  {
    lines[j].id in s && s[lines[j].id].qty - Demand(lines[..j + 1], lines[j].id) >= 0
  }

  predicate Feasible(s: Store, lines: seq<Line>) {
    forall j :: 0 <= j < |lines| ==> Servable(s, lines, j)
  }

  lemma PrefixOfPrefix(lines: seq<Line>, n: nat, j: nat)
    requires j <= n <= |lines|
    ensures lines[..n][..j] == lines[..j]
  {
  }

  /** Feasibility of a list is feasibility of all but its last line plus the
      last line being servable. */
  lemma FeasibleStep(s: Store, lines: seq<Line>)
    requires lines != []
    ensures Feasible(s, lines) <==> Feasible(s, lines[..|lines| - 1]) && Servable(s, lines, |lines| - 1)
  {
    var n := |lines|;
    var init := lines[..n - 1];
    forall j | 0 <= j < n - 1
      ensures Servable(s, lines, j) == Servable(s, init, j)
    {
      PrefixOfPrefix(lines, n - 1, j + 1);
    }
    if !Feasible(s, init) {
      var j :| 0 <= j < n - 1 && !Servable(s, init, j);
      assert !Servable(s, lines, j);
    }
  }

  /** Debiting one more line changes only that line's item, by its qty. */
  lemma DebitedStep(s: Store, lines: seq<Line>)
    requires lines != [] && lines[|lines| - 1].id in s
    ensures var last := lines[|lines| - 1];
            var st := Debited(s, lines[..|lines| - 1]);
            Debited(s, lines) == st[last.id := st[last.id].(qty := st[last.id].qty - last.qty)]
  {
    var last := lines[|lines| - 1];
    var st := Debited(s, lines[..|lines| - 1]);
    var next := st[last.id := st[last.id].(qty := st[last.id].qty - last.qty)];
    assert forall k :: k in s ==> Debited(s, lines)[k] == next[k];
  }

  /** Applying the last line to the store debited by the earlier ones: it is
      accepted exactly when servable, and then yields the store debited by all
      lines and the record with its original price. */
  lemma DebitStep(s: Store, lines: seq<Line>)
    requires lines != []
    ensures var last := lines[|lines| - 1];
            var a := Adjust(Debited(s, lines[..|lines| - 1]), last.id, -last.qty);
            && (a.response.Success() <==> Servable(s, lines, |lines| - 1))
            && (a.response.Success() ==> a.store == Debited(s, lines) && a.response.item.price == s[last.id].price)
  {
    var n := |lines|;
    var last := lines[n - 1];
    assert lines[..n] == lines;
    var st := Debited(s, lines[..n - 1]);
    if last.id in s {
      assert st[last.id].qty - last.qty == s[last.id].qty - Demand(lines, last.id);
      DebitedStep(s, lines);
    }
  }

  /** The purchase succeeds exactly when every line is servable in turn, and
      then the store holds every item reduced by its demand and the total is
      the sum of price × qty over the lines. */
  lemma {:induction false} ProcessCharacterized(s: Store, lines: seq<Line>)
    ensures Process(s, lines).Running? <==> Feasible(s, lines)
    ensures Process(s, lines).Running? ==> Process(s, lines) == Running(Debited(s, lines), Cost(s, lines))
  {
    if lines == [] {
      assert Debited(s, lines) == s;
    } else {
      ProcessCharacterized(s, lines[..|lines| - 1]);
      FeasibleStep(s, lines);
      DebitStep(s, lines);
    }
  }

  /** The prefix of length i + 1 is the prefix of length i and one more step. */
  lemma ProcessUnfold(s: Store, lines: seq<Line>, i: nat)
    requires i < |lines|
    ensures Process(s, lines[..i + 1]) == Step(Process(s, lines[..i]), lines[i])
  {
    var p := lines[..i + 1];
    assert p[..|p| - 1] == lines[..i];
    assert p[|p| - 1] == lines[i];
  }

  /** One more line after a running prefix, accepted: the loop goes on with
      the adjusted store and the line's price × qty added to the total. */
  lemma ProcessContinues(s: Store, lines: seq<Line>, i: nat, st: Store, total: int, a: Adjustment)
    requires i < |lines|
    requires Process(s, lines[..i]) == Running(st, total)
    requires a == Adjust(st, lines[i].id, -lines[i].qty) && a.response.Success()
    ensures Process(s, lines[..i + 1]) == Running(a.store, total + a.response.item.price * lines[i].qty)
  {
    ProcessUnfold(s, lines, i);
  }

  /** Once a line is refused, later lines change nothing: the refusal and the
      store at that moment are the final result. */
  lemma {:induction false} StoppedIsFinal(s: Store, lines: seq<Line>, k: nat)
    requires k <= |lines|
    requires Process(s, lines[..k]).Stopped?
    ensures Process(s, lines) == Process(s, lines[..k])
    decreases |lines| - k
  {
    if k < |lines| {
      var next := lines[..k + 1];
      assert next[..k] == lines[..k];
      StoppedIsFinal(s, lines, k + 1);
    } else {
      assert lines[..k] == lines;
    }
  }

  /** Line k is where the purchase stopped: every earlier line was applied
      and stays applied (no rollback), line k was refused, and the store and
      the response are exactly those of that moment. */
  predicate RefusedAt(s: Store, lines: seq<Line>, k: nat)
    requires k < |lines|
  {
    var a := Adjust(Debited(s, lines[..k]), lines[k].id, -lines[k].qty);
    && Feasible(s, lines[..k])
    && !Servable(s, lines, k)
    && !a.response.Success()
    && Process(s, lines) == Stopped(Debited(s, lines[..k]), a.response)
  }

  /** A refusal found in all but the last line is the refusal of the whole list. */
  lemma RefusedAtExtends(s: Store, lines: seq<Line>, k: nat)
    requires k < |lines| - 1
    requires RefusedAt(s, lines[..|lines| - 1], k)
    ensures RefusedAt(s, lines, k)
  {
    var init := lines[..|lines| - 1];
    PrefixOfPrefix(lines, |lines| - 1, k);
    PrefixOfPrefix(lines, |lines| - 1, k + 1);
    assert init[k] == lines[k];
    assert Servable(s, init, k) == Servable(s, lines, k);
  }

  /** One more line after a running prefix, refused: that refusal, with the
      store as it stood, is the result of the whole purchase. */
  lemma ProcessStops(s: Store, lines: seq<Line>, i: nat, st: Store, total: int, a: Adjustment)
    requires i < |lines|
    requires Process(s, lines[..i]) == Running(st, total)
    requires a == Adjust(st, lines[i].id, -lines[i].qty) && !a.response.Success()
    ensures Process(s, lines) == Stopped(st, a.response)
  {
    ProcessUnfold(s, lines, i);
    StoppedIsFinal(s, lines, i + 1);
  }

  /** A refused purchase was refused at some line. */
  lemma {:induction false} RefusalLeavesEarlierLines(s: Store, lines: seq<Line>) returns (k: nat)
    requires Process(s, lines).Stopped?
    ensures k < |lines| && RefusedAt(s, lines, k)
  {
    var n := |lines|;
    var init := lines[..n - 1];
    ProcessCharacterized(s, init);
    if Process(s, init).Stopped? {
      k := RefusalLeavesEarlierLines(s, init);
      RefusedAtExtends(s, lines, k);
    } else {
      k := n - 1;
      DebitStep(s, lines);
    }
  }

  /** Lines applied in any number keep every quantity non-negative, whether the
      purchase goes through or stops part-way. */
  lemma {:induction false} ProcessKeepsNonNegative(s: Store, lines: seq<Line>)
    requires NonNegative(s)
    ensures NonNegative(Process(s, lines).store)
  {
    if lines != [] {
      ProcessKeepsNonNegative(s, lines[..|lines| - 1]);
      match Process(s, lines[..|lines| - 1])
      case Running(st, _) =>
        AdjustOnlyChangesQty(st, lines[|lines| - 1].id, -lines[|lines| - 1].qty);
      case Stopped(_, _) =>
    }
  }

  /** Items A (3 in stock) and B (1 in stock): buying 2 of A then 5 of B is
      refused on B with its shortage message, and A stays at 1. */
  lemma PartialPurchaseExample(a: Item, b: Item)
    requires a.qty == 3 && b.qty == 1
    ensures var s := map[0 := a, 1 := b];
            Process(s, [Line(0, 2), Line(1, 5)])
            == Stopped(map[0 := a.(qty := 1), 1 := b], Shortage(ShortageMessage(1, b.name)))
  {
    var s := map[0 := a, 1 := b];
    var lines := [Line(0, 2), Line(1, 5)];
    assert lines[..1][..0] == [];
    assert Process(s, lines[..1]) == Running(s[0 := a.(qty := 1)], a.price * 2);
    assert s[0 := a.(qty := 1)] == map[0 := a.(qty := 1), 1 := b];
  }
}
