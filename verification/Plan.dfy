/** Plan steps, the `{{steps.<id>.output}}` references in their arguments, and the dependency graph read off them. */
module Plan {

  type Id = string

  /** An argument string cut at its references. */
  datatype Piece = Lit(text: string) | Ref(id: Id)

  datatype Arg = Text(pieces: seq<Piece>) | Other(value: string)

  datatype PlanStep = PlanStep(id: Id, tool: string, args: seq<(string, Arg)>)

  /** A tool's return value: Python's None, or anything else as `str` shows it. */
  datatype Value = Null | Shown(text: string)

  datatype ResolvedArg = Filled(text: string) | Untouched(value: string)

  type Resolved = seq<(string, ResolvedArg)>

  function Ids(steps: seq<PlanStep>): set<Id> {
    set s | s in steps :: s.id
  }

  predicate DistinctIds(steps: seq<PlanStep>) {
    forall i, j :: 0 <= i < j < |steps| ==> steps[i].id != steps[j].id
  }

  // ---- Substitution -----------------------------------------------------------------------------

  function Lookup(outputs: map<Id, Value>, id: Id): Value {
    if id in outputs then outputs[id] else Null
  }

  /** A reference as it is written. */
  function Template(id: Id): string {
    "{{steps." + id + ".output}}"
  }

  function PieceText(p: Piece, outputs: map<Id, Value>): string {
    match p
    case Lit(text) => text
    case Ref(id) => if Lookup(outputs, id).Shown? then Lookup(outputs, id).text else Template(id)
  }

  function Substitute(pieces: seq<Piece>, outputs: map<Id, Value>): string {
    if pieces == [] then "" else Substitute(pieces[..|pieces| - 1], outputs) + PieceText(pieces[|pieces| - 1], outputs)
  }

  function ResolveArg(a: Arg, outputs: map<Id, Value>): ResolvedArg {
    match a
    case Text(pieces) => Filled(Substitute(pieces, outputs))
    case Other(value) => Untouched(value)
  }

  function Resolve(args: seq<(string, Arg)>, outputs: map<Id, Value>): (r: Resolved) {
    seq(|args|, i requires 0 <= i < |args| => (args[i].0, ResolveArg(args[i].1, outputs)))
  }

  /** One pass over an argument string. */
  method SubstituteAll(pieces: seq<Piece>, outputs: map<Id, Value>) returns (text: string)
    ensures text == Substitute(pieces, outputs)
  {
    text := "";
    for j := 0 to |pieces|
      invariant text == Substitute(pieces[..j], outputs)
    {
      assert pieces[..j + 1][..j] == pieces[..j];
      text := text + PieceText(pieces[j], outputs);
    }
    assert pieces[..|pieces|] == pieces;
  }

  method ResolveReferences(args: seq<(string, Arg)>, outputs: map<Id, Value>) returns (resolved: Resolved)
    ensures resolved == Resolve(args, outputs)
  {
    resolved := [];
    for i := 0 to |args|
      invariant resolved == Resolve(args[..i], outputs)
    {
      if args[i].1.Text? {
        var text := SubstituteAll(args[i].1.pieces, outputs);
        resolved := resolved + [(args[i].0, Filled(text))];
      } else {
        resolved := resolved + [(args[i].0, Untouched(args[i].1.value))];
      }
    }
    assert args[..|args|] == args;
  }

  // ---- What substitution does to an argument -----------------------------------------------------

  /** Keys keep their order, each argument is resolved by itself, and values that are not strings stay as they are. */
  lemma ResolveByArgument(args: seq<(string, Arg)>, outputs: map<Id, Value>, i: nat)
    requires i < |args|
    ensures |Resolve(args, outputs)| == |args| && Resolve(args, outputs)[i].0 == args[i].0
    ensures Resolve(args, outputs)[i] == Resolve([args[i]], outputs)[0]
    ensures args[i].1.Other? ==> Resolve(args, outputs)[i].1 == Untouched(args[i].1.value)
    ensures args[i].1.Text? ==> Resolve(args, outputs)[i].1.Filled?
    ensures args[i].1 == Text([]) ==> Resolve(args, outputs)[i].1 == Filled("")
  {
  }

  lemma {:induction false} SubstituteConcat(p: seq<Piece>, q: seq<Piece>, outputs: map<Id, Value>)
    ensures Substitute(p + q, outputs) == Substitute(p, outputs) + Substitute(q, outputs)
  {
    if q == [] {
      assert p + q == p;
    } else {
      var init, last := q[..|q| - 1], q[|q| - 1];
      assert (p + q)[..|p + q| - 1] == p + init && (p + q)[|p + q| - 1] == last;
      hide PieceText, Substitute;
      SubstituteConcat(p, init, outputs);
      SubstituteSnoc(p + q, p + init, last, outputs);
      SubstituteSnoc(q, init, last, outputs);
      Associate(Substitute(p, outputs), Substitute(init, outputs), PieceText(last, outputs));
    }
  }

  lemma SubstituteSnoc(q: seq<Piece>, init: seq<Piece>, last: Piece, outputs: map<Id, Value>)
    requires q != [] && q[..|q| - 1] == init && q[|q| - 1] == last
    ensures Substitute(q, outputs) == Substitute(init, outputs) + PieceText(last, outputs)
  {
  }

  lemma Associate(a: string, b: string, c: string)
    ensures (a + b) + c == a + (b + c)
  {
  }

  /** Wherever a reference stands in an argument string, it becomes the output it refers to, as `str` shows it, or stays
      as it is written if there is none; a literal stays as it is; and what comes before and after is resolved as
      it would be alone. */
  lemma PieceReplaced(key: string, before: seq<Piece>, piece: Piece, after: seq<Piece>, outputs: map<Id, Value>,
                      left: string, right: string)
    requires Resolve([(key, Text(before))], outputs) == [(key, Filled(left))]
    requires Resolve([(key, Text(after))], outputs) == [(key, Filled(right))]
    ensures piece.Lit? ==>
              Resolve([(key, Text(before + [piece] + after))], outputs) == [(key, Filled(left + piece.text + right))]
    ensures piece.Ref? && piece.id in outputs && outputs[piece.id].Shown? ==>
              Resolve([(key, Text(before + [piece] + after))], outputs)
              == [(key, Filled(left + outputs[piece.id].text + right))]
    ensures piece.Ref? && !(piece.id in outputs && outputs[piece.id].Shown?) ==>
              Resolve([(key, Text(before + [piece] + after))], outputs)
              == [(key, Filled(left + ("{{steps." + piece.id + ".output}}") + right))]
  {
    ArgTexts(key, before, outputs);
    ArgTexts(key, after, outputs);
    ArgTexts(key, before + [piece] + after, outputs);
    SubstituteConcat(before + [piece], after, outputs);
    SubstituteConcat(before, [piece], outputs);
    assert [piece][..0] == [];
    assert Substitute([piece], outputs) == "" + PieceText(piece, outputs) == PieceText(piece, outputs);
  }

  lemma ArgTexts(key: string, pieces: seq<Piece>, outputs: map<Id, Value>)
    ensures Resolve([(key, Text(pieces))], outputs) == [(key, Filled(Substitute(pieces, outputs)))]
    ensures forall text :: Resolve([(key, Text(pieces))], outputs) == [(key, Filled(text))] ==>
              text == Substitute(pieces, outputs)
  {
    assert Resolve([(key, Text(pieces))], outputs)[0] == (key, Filled(Substitute(pieces, outputs)));
    forall text | Resolve([(key, Text(pieces))], outputs) == [(key, Filled(text))]
      ensures text == Substitute(pieces, outputs)
    {
      assert [(key, Filled(text))][0] == (key, Filled(text));
    }
  }

  // ---- References --------------------------------------------------------------------------------

  predicate Mentions(s: PlanStep, id: Id) {
    exists i, j :: 0 <= i < |s.args| && s.args[i].1.Text? && 0 <= j < |s.args[i].1.pieces|
                   && s.args[i].1.pieces[j] == Ref(id)
  }

  function Refs(s: PlanStep): (r: set<Id>)
    ensures forall id :: id in r <==> Mentions(s, id)
  {
    set i, j | 0 <= i < |s.args| && s.args[i].1.Text? && 0 <= j < |s.args[i].1.pieces| && s.args[i].1.pieces[j].Ref?
      :: s.args[i].1.pieces[j].id
  }

  ghost predicate AgreeOn(ids: set<Id>, m: map<Id, Value>, n: map<Id, Value>) {
    forall id :: id in ids ==> Lookup(m, id) == Lookup(n, id)
  }

  lemma {:induction false} SubstituteAgrees(pieces: seq<Piece>, m: map<Id, Value>, n: map<Id, Value>)
    requires forall j :: 0 <= j < |pieces| ==> PieceText(pieces[j], m) == PieceText(pieces[j], n)
    ensures Substitute(pieces, m) == Substitute(pieces, n)
  {
    if pieces != [] {
      SubstituteAgrees(pieces[..|pieces| - 1], m, n);
    }
  }

  /** A step's resolved arguments depend only on the outputs of the steps it mentions. */
  lemma ResolveDependsOnRefs(s: PlanStep, m: map<Id, Value>, n: map<Id, Value>)
    requires AgreeOn(Refs(s), m, n)
    ensures Resolve(s.args, m) == Resolve(s.args, n)
  {
    forall i | 0 <= i < |s.args| ensures ResolveArg(s.args[i].1, m) == ResolveArg(s.args[i].1, n) {
      if s.args[i].1.Text? {
        forall j | 0 <= j < |s.args[i].1.pieces|
          ensures PieceText(s.args[i].1.pieces[j], m) == PieceText(s.args[i].1.pieces[j], n)
        {
          if s.args[i].1.pieces[j].Ref? { assert Mentions(s, s.args[i].1.pieces[j].id); }
        }
        SubstituteAgrees(s.args[i].1.pieces, m, n);
      }
    }
  }

  // ---- Validation and the dependency graph ----------------------------------------------------------

  ghost predicate RefsKnown(steps: seq<PlanStep>) {
    forall s, id :: s in steps && Mentions(s, id) ==> id in Ids(steps)
  }

  ghost predicate IsError(steps: seq<PlanStep>, known: set<Id>, e: (Id, Id)) {
    exists s :: s in steps && s.id == e.0 && Mentions(s, e.1) && e.1 !in known
  }

  /** The unknown references of one step, in the order in which they occur. */
  method StepErrors(s: PlanStep, known: set<Id>) returns (errors: seq<(Id, Id)>)
    ensures forall e :: e in errors <==> e.0 == s.id && Mentions(s, e.1) && e.1 !in known
  {
    errors := [];
    for i := 0 to |s.args|
      invariant forall e :: e in errors <==> e.0 == s.id && e.1 !in known && Mentions(s.(args := s.args[..i]), e.1)
    {
      var before := errors;
      if s.args[i].1.Text? {
        var pieces := s.args[i].1.pieces;
        for j := 0 to |pieces|
          invariant forall e :: e in errors <==>
                      e in before || (e.0 == s.id && e.1 !in known && Ref(e.1) in pieces[..j])
        {
          assert pieces[..j + 1] == pieces[..j] + [pieces[j]];
          if pieces[j].Ref? && pieces[j].id !in known {
            errors := errors + [(s.id, pieces[j].id)];
          }
        }
        assert pieces[..|pieces|] == pieces;
      }
      MentionsPrefix(s, i);
    }
    assert s.(args := s.args[..|s.args|]) == s;
  }

  lemma MentionsPrefix(s: PlanStep, i: nat)
    requires i < |s.args|
    ensures forall id :: Mentions(s.(args := s.args[..i + 1]), id) <==>
                         Mentions(s.(args := s.args[..i]), id) || (s.args[i].1.Text? && Ref(id) in s.args[i].1.pieces)
  {
  }

  /** One error for each mention of an unknown step; none exactly when every reference is known. */
  method ValidateStepReferences(steps: seq<PlanStep>) returns (errors: seq<(Id, Id)>)
    ensures forall e :: e in errors <==> IsError(steps, Ids(steps), e)
    ensures errors == [] <==> RefsKnown(steps)
  {
    var known := Ids(steps);
    errors := [];
    for i := 0 to |steps|
      invariant forall e :: e in errors <==> IsError(steps[..i], known, e)
    {
      var more := StepErrors(steps[i], known);
      assert steps[..i + 1] == steps[..i] + [steps[i]];
      forall e ensures IsError(steps[..i + 1], known, e) <==> IsError(steps[..i], known, e) || e in more {
        if e in more { assert steps[i] in steps[..i + 1]; }
      }
      errors := errors + more;
    }
    assert steps[..|steps|] == steps;
    if errors != [] {
      assert IsError(steps, known, errors[0]);
    } else if !RefsKnown(steps) {
      var s, id :| s in steps && Mentions(s, id) && id !in known;
      assert IsError(steps, known, (s.id, id));
    }
  }

  /** Everything that the steps with this id mention. */
  function RefsUnder(steps: seq<PlanStep>, id: Id): set<Id> {
    if steps == [] then {}
    else RefsUnder(steps[..|steps| - 1], id) + (if steps[|steps| - 1].id == id then Refs(steps[|steps| - 1]) else {})
  }

  method BuildDag(steps: seq<PlanStep>) returns (deps: map<Id, set<Id>>)
    ensures deps.Keys == Ids(steps)
    ensures forall id :: id in deps ==> deps[id] == RefsUnder(steps, id)
    ensures DistinctIds(steps) ==> forall s :: s in steps ==> deps[s.id] == Refs(s)
  {
    hide Refs, Mentions;
    deps := map id | id in Ids(steps) :: {};
    for i := 0 to |steps|
      invariant deps.Keys == Ids(steps)
      invariant forall id :: id in deps ==> deps[id] == RefsUnder(steps[..i], id)
    {
      assert steps[i] in steps;
      assert steps[..i + 1][..i] == steps[..i];
      deps := deps[steps[i].id := deps[steps[i].id] + Refs(steps[i])];
    }
    assert steps[..|steps|] == steps;
    if DistinctIds(steps) {
      forall s | s in steps ensures deps[s.id] == Refs(s) {
        var i :| 0 <= i < |steps| && steps[i] == s;
        RefsUnderDistinct(steps, i);
      }
    }
  }

  lemma {:induction false} RefsUnderDistinct(steps: seq<PlanStep>, i: nat)
    requires DistinctIds(steps) && i < |steps|
    ensures RefsUnder(steps, steps[i].id) == Refs(steps[i])
  {
    var init := steps[..|steps| - 1];
    if i == |steps| - 1 {
      RefsUnderAbsent(init, steps[i].id);
    } else {
      RefsUnderDistinct(init, i);
    }
  }

  lemma {:induction false} RefsUnderAbsent(steps: seq<PlanStep>, id: Id)
    requires forall s :: s in steps ==> s.id != id
    ensures RefsUnder(steps, id) == {}
  {
    if steps != [] {
      assert steps[|steps| - 1] in steps;
      RefsUnderAbsent(steps[..|steps| - 1], id);
    }
  }
}
