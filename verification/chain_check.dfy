/**
 * What the loader's check gives a chain. It is made of one stage at a time,
 * so it settles the operands a stage produces, and of those it is brought only
 * that nothing moved the band since the stage began.
 */
module ChainCheck {
  import opened Rows
  import opened BandPlan
  import opened BandRanges
  import opened ChainBudget
  import opened ChainBytes
  import opened ChainTiles
  import opened ChainLimits
  import Check = StripeCheck

  /** Stage c of a chain as the loader checks it, with the tensors the plan lists as its inputs and outputs. */
  function StageOf(ch: ChainPlan, c: nat, widths: seq<nat>, ins: seq<Tensor>, outs: seq<Tensor>): Check.Stage
    requires ch.Shaped() && c < |ch.cuts| - 1 && ch.cuts[c] <= ch.cuts[c + 1] <= |ch.p.ops|
  {
    Check.Stage(Check.ByChain, Plan(ch.p.heights, ch.p.batches, ch.p.ops[ch.cuts[c]..ch.cuts[c + 1]]), widths, true, ins, outs)
  }

  /** s is stage c of the chain, under the plan's inputs and outputs. */
  ghost predicate IsStage(ch: ChainPlan, c: nat, s: Check.Stage)
    requires ch.Shaped()
  {
    && c < |ch.cuts| - 1 && ch.cuts[c] <= ch.cuts[c + 1] <= |ch.p.ops|
    && s == StageOf(ch, c, s.widths, s.ins, s.outs) && Check.Shaped(s)
  }

  /** Operator l of a stage is the chain's, and moves what it moves there or more. */
  lemma StageOperator(ch: ChainPlan, c: nat, s: Check.Stage, l: nat)
    requires ch.Shaped() && IsStage(ch, c, s) && l < |s.p.ops|
    ensures ch.cuts[c] + l < |ch.p.ops| && s.p.ops[l] == ch.p.ops[ch.cuts[c] + l]
    ensures OpInRange(ch.p, s.p.ops[l]) && OpInRange(s.p, s.p.ops[l])
    ensures Moves(ch.p, s.p.ops[l]) ==> Check.MovesBand(s, s.p.ops[l])
  {
    hide Stages, ValidWindows;
  }

  /** The operators of a stage. */
  lemma StageLength(ch: ChainPlan, c: nat, s: Check.Stage)
    requires ch.Shaped() && IsStage(ch, c, s)
    ensures Check.Shaped(s) && c < |ch.cuts| - 1 && ch.cuts[c] + |s.p.ops| == ch.cuts[c + 1] <= |ch.p.ops|
  {
    hide Stages, ValidWindows, InRange;
  }

  lemma StillStep(p: Plan, i: nat, j: nat)
    requires InRange(p) && i <= j < |p.ops| && Still(p, i, j)
    ensures !Moves(p, p.ops[j]) ==> Still(p, i, j + 1)
  {}

  /** What the check found of tensor t at operator j: produced in the stage that starts at `from` with no move since, or brought in with none at all. */
  predicate Found(ch: ChainPlan, from: nat, ins: seq<Tensor>, j: nat, t: Tensor)
    requires ch.Shaped() && from <= j <= |ch.p.ops|
  {
    if Origin(ch, t, j) > from then Still(ch.p, Origin(ch, t, j), j)
    else t in ins && Origin(ch, t, j) == Origin(ch, t, from) && Still(ch.p, from, j)
  }

  lemma FoundStep(ch: ChainPlan, from: nat, ins: seq<Tensor>, j: nat, t: Tensor)
    requires ch.Shaped() && from <= j < |ch.p.ops|
    requires t in ch.p.ops[j].outs || (Found(ch, from, ins, j, t) && !Moves(ch.p, ch.p.ops[j]))
    ensures Found(ch, from, ins, j + 1, t)
  {
    hide Moves, Stages, ValidWindows;
    if t !in ch.p.ops[j].outs {
      StillStep(ch.p, if Origin(ch, t, j) > from then Origin(ch, t, j) else from, j);
    }
  }

  lemma {:induction false} FoundOnBand(ch: ChainPlan, c: nat, s: Check.Stage, position: nat, t: Tensor)
    requires ch.Shaped() && IsStage(ch, c, s) && Check.Shaped(s) && position <= |s.p.ops|
    requires c < |ch.cuts| - 1 && ch.cuts[c] + |s.p.ops| <= |ch.p.ops| && Check.ReadsTheBand(s, position, t)
    ensures Found(ch, ch.cuts[c], s.ins, ch.cuts[c] + position, t)
  {
    hide IsStage, Check.Shaped, Check.MovesBand, Moves, InRange, Stages, ValidWindows, Still;
    if position == 0 {
      NoneStill(ch.p, ch.cuts[c]);
    } else {
      StageOperator(ch, c, s, position - 1);
      if t !in s.p.ops[position - 1].outs { FoundOnBand(ch, c, s, position - 1, t); }
      hide Found;
      FoundStep(ch, ch.cuts[c], s.ins, ch.cuts[c] + position - 1, t);
    }
  }

  lemma NoneStill(p: Plan, j: nat)
    requires InRange(p) && j <= |p.ops|
    ensures Still(p, j, j)
  {}

  /**
   * In an accepted stage an operand of any operator but a two-operand
   * elementwise one is read right in a tile exactly when the stage produced it
   * or the rows held of it lie on the band the stage starts from.
   */
  lemma CheckedOperand(ch: ChainPlan, c: nat, s: Check.Stage, j: nat, i: nat, last: Band)
    requires WellFormed(ch) && last.Inside(LastH(ch)) && IsStage(ch, c, s) && Check.Accepted(s)
    requires ch.cuts[c] <= j < ch.cuts[c + 1] <= |ch.p.ops| && i < |ch.p.ops[j].ins| && !IsPair(ch.p.ops[j])
    ensures var t := ch.p.ops[j].ins[i];
      && t < |ch.p.heights| && (Origin(ch, t, j) > ch.cuts[c] || t in s.ins)
      && (ReadsOperand(ch, j, i, last) <==>
            || Origin(ch, t, j) > ch.cuts[c]
            || Aligned(HeldAt(ch, t, ch.cuts[c], last), BandAt(ch.p, ch.cuts[c], last), ch.p.batches[t]))
  {
    hide WellFormed, IsStage, Check.Accepted, Fits, Still, Moves, BandAt, Stages, ValidWindows;
    var t := ch.p.ops[j].ins[i];
    ChainFits(ch);
    StageLength(ch, c, s);
    CheckedFound(ch, c, s, j, i);
    var k := if Origin(ch, t, j) > ch.cuts[c] then Origin(ch, t, j) else ch.cuts[c];
    StillBand(ch.p, k, j, LastH(ch), last);
  }

  lemma CheckedFound(ch: ChainPlan, c: nat, s: Check.Stage, j: nat, i: nat)
    requires ch.Shaped() && IsStage(ch, c, s) && Check.Accepted(s)
    requires ch.cuts[c] <= j < ch.cuts[c + 1] <= |ch.p.ops| && i < |ch.p.ops[j].ins| && !IsPair(ch.p.ops[j])
    ensures OpInRange(ch.p, ch.p.ops[j]) && Found(ch, ch.cuts[c], s.ins, j, ch.p.ops[j].ins[i])
  {
    hide Check.Accepted, Check.Shaped, Check.ReadsTheBand, IsStage, Found, Stages, ValidWindows, InRange;
    StageLength(ch, c, s);
    StageOperator(ch, c, s, j - ch.cuts[c]);
    AcceptedInput(s, j - ch.cuts[c], i);
    FoundOnBand(ch, c, s, j - ch.cuts[c], ch.p.ops[j].ins[i]);
  }

  lemma ChainFits(ch: ChainPlan)
    requires WellFormed(ch)
    ensures ch.Shaped() && |ch.outs| >= 1 && Fits(ch.p, LastH(ch))
  {}

  lemma AcceptedInput(s: Check.Stage, l: nat, i: nat)
    requires Check.Shaped(s) && Check.Accepted(s) && l < |s.p.ops| && i < |s.p.ops[l].ins| && !IsPair(s.p.ops[l])
    ensures Check.ReadsTheBand(s, l, s.p.ops[l].ins[i])
  {
    hide Check.Shaped, Check.ReadsTheBand, Check.OutputAccepted;
    assert Check.OpAccepted(s, l) && Check.InputAccepted(s, l, i);
  }
}
