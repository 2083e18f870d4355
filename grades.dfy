/** The four grade components of one student (quiz, assignment, midterm,
    final exam), their shared validation, the partial-update semantics of the
    registry's grade setter, and the weighted final score. */
module Grades {
  import opened Common

  const NotNumberMsg: string := "Nilai harus berupa angka."
  const RangeMsg: string := "Nilai harus antara 0..100"

  /** The weights of the final score: quiz 15%, assignment 25%, midterm 25%,
      final exam 35%. */
  const WQuiz: real := 0.15
  const WTugas: real := 0.25
  const WUts: real := 0.25
  const WUas: real := 0.35

  /** Names the four components, in the order the setters run. */
  datatype Field = Quiz | Tugas | Uts | Uas

  /** The place of a component in that order. */
  function Pos(f: Field): nat
  {
    match f
    case Quiz => 0
    case Tugas => 1
    case Uts => 2
    case Uas => 3
  }

  /** The value of a component set: what a `Penilaian` object holds. */
  datatype Komponen = Komponen(quiz: Score, tugas: Score, uts: Score, uas: Score)
  {
    function Get(f: Field): Score
    {
      match f
      case Quiz => quiz
      case Tugas => tugas
      case Uts => uts
      case Uas => uas
    }

    /** Replaces one component; the other three are kept. */
    function With(f: Field, s: Score): (k: Komponen)
      ensures k.Get(f) == s
      ensures forall g :: g != f ==> k.Get(g) == Get(g)
    {
      match f
      case Quiz => this.(quiz := s)
      case Tugas => this.(tugas := s)
      case Uts => this.(uts := s)
      case Uas => this.(uas := s)
    }
  }

  /** All four components at zero: a freshly constructed `Penilaian`. */
  const Zero: Komponen := Komponen(0.0, 0.0, 0.0, 0.0)

  /** `_validate`: returns the number itself when it is in [0, 100], and
      raises otherwise, with one message for input that is not a number and
      another for a number out of range. */
  function Validate(v: Input): (r: Result<Score>)
    ensures r.Ok? <==> Accepts(v)
    ensures r.Ok? ==> r.value == v.value
    ensures v.NotNumber? ==> r == Err(ValueError(NotNumberMsg))
    ensures !v.NotNumber? && !Accepts(v) ==> r == Err(ValueError(RangeMsg))
  {
    match v
    case NotNumber => Err(ValueError(NotNumberMsg))
    case NonFinite => Err(ValueError(RangeMsg))
    case Num(x) => if 0.0 <= x <= 100.0 then Ok(x) else Err(ValueError(RangeMsg))
  }

  /** One property setter applied to a component set: the new components and
      whether the setter raised. */
  function SetField(k: Komponen, f: Field, v: Input): (res: (Komponen, Outcome))
    ensures res.1 == Pass <==> Accepts(v)
    ensures Accepts(v) ==> res.0 == k.With(f, v.value)
    ensures !Accepts(v) ==> res.0 == k && res.1 == Fail(Validate(v).error)
  {
    match Validate(v)
    case Ok(s) => (k.With(f, s), Pass)
    case Err(e) => (k, Fail(e))
  }

  /** A run of setters, applied left to right; the first one that raises
      stops the run, and the assignments made before it stay in place. */
  function Apply(k: Komponen, ups: seq<(Field, Input)>): (Komponen, Outcome)
    decreases |ups|
  {
    if ups == [] then (k, Pass)
    else
      var (k1, o) := SetField(k, ups[0].0, ups[0].1);
      if o.Fail? then (k1, o) else Apply(k1, ups[1..])
  }

  /** The setters `set_penilaian` runs: one per argument that is not `None`,
      in the order quiz, tugas, uts, uas. */
  function Requested(quiz: Option<Input>, tugas: Option<Input>,
                     uts: Option<Input>, uas: Option<Input>): seq<(Field, Input)>
  {
    (if quiz.Some? then [(Quiz, quiz.value)] else [])
    + (if tugas.Some? then [(Tugas, tugas.value)] else [])
    + (if uts.Some? then [(Uts, uts.value)] else [])
    + (if uas.Some? then [(Uas, uas.value)] else [])
  }

  /** The run holds a setter for a component exactly when its argument is
      supplied, with that argument, and the setters come in the order quiz,
      tugas, uts, uas. */
  lemma RequestedExact(quiz: Option<Input>, tugas: Option<Input>,
                       uts: Option<Input>, uas: Option<Input>)
    ensures var ups := Requested(quiz, tugas, uts, uas);
      && (forall i :: 0 <= i < |ups| ==> ups[i].0 != Quiz || quiz.Some?)
      && (forall i :: 0 <= i < |ups| ==> ups[i].0 != Tugas || tugas.Some?)
      && (forall i :: 0 <= i < |ups| ==> ups[i].0 != Uts || uts.Some?)
      && (forall i :: 0 <= i < |ups| ==> ups[i].0 != Uas || uas.Some?)
      && (quiz.Some? ==> (Quiz, quiz.value) in ups)
      && (tugas.Some? ==> (Tugas, tugas.value) in ups)
      && (uts.Some? ==> (Uts, uts.value) in ups)
      && (uas.Some? ==> (Uas, uas.value) in ups)
      && (forall i, j :: 0 <= i < j < |ups| ==> Pos(ups[i].0) < Pos(ups[j].0))
  {
  }

  /** The effect of `set_penilaian` on the components it finds. */
  function PartialUpdate(k: Komponen, quiz: Option<Input>, tugas: Option<Input>,
                         uts: Option<Input>, uas: Option<Input>): (Komponen, Outcome)
  {
    Apply(k, Requested(quiz, tugas, uts, uas))
  }

  /** One unfolding of `Apply` on a run written as first setter and rest. */
  lemma ApplyCons(k: Komponen, u: (Field, Input), rest: seq<(Field, Input)>)
    ensures Apply(k, [u] + rest) ==
      (var (k1, o) := SetField(k, u.0, u.1); if o.Fail? then (k1, o) else Apply(k1, rest))
  {
    assert ([u] + rest)[1..] == rest;
  }

  /** One `if v is not None: p.f = v` step of `set_penilaian`, taken only
      when no earlier step raised. */
  function Then(prev: (Komponen, Outcome), f: Field, v: Option<Input>): (Komponen, Outcome)
  {
    if prev.1.Fail? || v.None? then prev else SetField(prev.0, f, v.value)
  }

  /** `PartialUpdate` is the four guarded steps of `set_penilaian` in a row. */
  lemma PartialUpdateSteps(k: Komponen, quiz: Option<Input>, tugas: Option<Input>,
                           uts: Option<Input>, uas: Option<Input>)
    ensures PartialUpdate(k, quiz, tugas, uts, uas)
      == Then(Then(Then(Then((k, Pass), Quiz, quiz), Tugas, tugas), Uts, uts), Uas, uas)
  {
    var q := if quiz.Some? then [(Quiz, quiz.value)] else [];
    var t := if tugas.Some? then [(Tugas, tugas.value)] else [];
    var u := if uts.Some? then [(Uts, uts.value)] else [];
    var a := if uas.Some? then [(Uas, uas.value)] else [];
    assert Requested(quiz, tugas, uts, uas) == q + (t + (u + a));
    ApplyConcat(k, q, t + (u + a));
    var s1 := Apply(k, q);
    if quiz.Some? { ApplyCons(k, (Quiz, quiz.value), []); assert q == [(Quiz, quiz.value)] + []; }
    assert s1 == Then((k, Pass), Quiz, quiz);
    ApplyConcat(s1.0, t, u + a);
    var s2 := Apply(s1.0, t);
    if tugas.Some? { ApplyCons(s1.0, (Tugas, tugas.value), []); assert t == [(Tugas, tugas.value)] + []; }
    ApplyConcat(s2.0, u, a);
    var s3 := Apply(s2.0, u);
    if uts.Some? { ApplyCons(s2.0, (Uts, uts.value), []); assert u == [(Uts, uts.value)] + []; }
    if uas.Some? { ApplyCons(s3.0, (Uas, uas.value), []); assert a == [(Uas, uas.value)] + []; }
  }

  /** A run of setters completes exactly when every value in it validates. */
  lemma {:induction false} ApplyPassIff(k: Komponen, ups: seq<(Field, Input)>)
    ensures Apply(k, ups).1 == Pass <==> forall i :: 0 <= i < |ups| ==> Accepts(ups[i].1)
    decreases |ups|
  {
    if ups != [] {
      var (k1, o) := SetField(k, ups[0].0, ups[0].1);
      if o == Pass {
        ApplyPassIff(k1, ups[1..]);
        assert forall i :: 1 <= i < |ups| ==> ups[i] == ups[1..][i - 1];
      }
    }
  }

  /** Running two runs one after the other is running their concatenation,
      except that a failure in the first run skips the second. */
  lemma {:induction false} ApplyConcat(k: Komponen, a: seq<(Field, Input)>, b: seq<(Field, Input)>)
    ensures Apply(k, a + b) ==
      (var (k1, o1) := Apply(k, a); if o1.Fail? then (k1, o1) else Apply(k1, b))
    decreases |a|
  {
    if a != [] {
      assert (a + b)[0] == a[0];
      assert (a + b)[1..] == a[1..] + b;
      var (k1, o) := SetField(k, a[0].0, a[0].1);
      if o == Pass {
        ApplyConcat(k1, a[1..], b);
      }
    } else {
      assert a + b == b;
    }
  }

  /** When the setter at index j is the first whose value fails validation,
      the run raises that setter's error and the result is what the setters
      before j produced. */
  lemma ApplyStopsAtFirstFailure(k: Komponen, ups: seq<(Field, Input)>, j: nat)
    requires j < |ups| && !Accepts(ups[j].1)
    requires forall i :: 0 <= i < j ==> Accepts(ups[i].1)
    ensures Apply(k, ups) == (Apply(k, ups[..j]).0, Fail(Validate(ups[j].1).error))
  {
    assert ups == ups[..j] + ups[j..];
    ApplyConcat(k, ups[..j], ups[j..]);
    ApplyPassIff(k, ups[..j]);
    var k1 := Apply(k, ups[..j]).0;
    assert ups[j..][0] == ups[j];
    assert Apply(k1, ups[j..]) == (k1, Fail(Validate(ups[j].1).error));
  }

  /** A component that no setter in the run names keeps its value. */
  lemma {:induction false} ApplyFrame(k: Komponen, ups: seq<(Field, Input)>, f: Field)
    requires forall i :: 0 <= i < |ups| ==> ups[i].0 != f
    ensures Apply(k, ups).0.Get(f) == k.Get(f)
    decreases |ups|
  {
    if ups != [] {
      var (k1, o) := SetField(k, ups[0].0, ups[0].1);
      assert k1.Get(f) == k.Get(f);
      if o == Pass {
        ApplyFrame(k1, ups[1..], f);
      }
    }
  }

  /** In a run that completes, the last setter naming a component decides
      that component's value. */
  lemma {:induction false} ApplyAssigns(k: Komponen, ups: seq<(Field, Input)>, i: nat)
    requires i < |ups|
    requires Apply(k, ups).1 == Pass
    requires forall j :: i < j < |ups| ==> ups[j].0 != ups[i].0
    ensures ups[i].1.Num? && Apply(k, ups).0.Get(ups[i].0) == ups[i].1.value
    decreases |ups|
  {
    ApplyPassIff(k, ups);
    var (k1, o) := SetField(k, ups[0].0, ups[0].1);
    assert Accepts(ups[0].1);
    if i == 0 {
      ApplyFrame(k1, ups[1..], ups[0].0);
    } else {
      ApplyAssigns(k1, ups[1..], i - 1);
    }
  }

  /** `set_penilaian` leaves every component whose argument is `None` as it was,
      whether or not the call raises. */
  lemma PartialUpdateKeepsOmitted(k: Komponen, quiz: Option<Input>, tugas: Option<Input>,
                                  uts: Option<Input>, uas: Option<Input>)
    ensures var k' := PartialUpdate(k, quiz, tugas, uts, uas).0;
      && (quiz.None? ==> k'.quiz == k.quiz)
      && (tugas.None? ==> k'.tugas == k.tugas)
      && (uts.None? ==> k'.uts == k.uts)
      && (uas.None? ==> k'.uas == k.uas)
  {
    var ups := Requested(quiz, tugas, uts, uas);
    RequestedExact(quiz, tugas, uts, uas);
    if quiz.None? { ApplyFrame(k, ups, Quiz); }
    if tugas.None? { ApplyFrame(k, ups, Tugas); }
    if uts.None? { ApplyFrame(k, ups, Uts); }
    if uas.None? { ApplyFrame(k, ups, Uas); }
  }

  /** When every supplied argument validates, `set_penilaian` completes and
      each supplied component takes exactly the supplied value; otherwise it
      raises. */
  lemma PartialUpdateAllValid(k: Komponen, quiz: Option<Input>, tugas: Option<Input>,
                              uts: Option<Input>, uas: Option<Input>)
    ensures var (k', o) := PartialUpdate(k, quiz, tugas, uts, uas);
      && (o == Pass <==>
           (quiz.Some? ==> Accepts(quiz.value)) && (tugas.Some? ==> Accepts(tugas.value))
           && (uts.Some? ==> Accepts(uts.value)) && (uas.Some? ==> Accepts(uas.value)))
      && (o == Pass ==>
           (quiz.Some? ==> k'.quiz == quiz.value.value) && (tugas.Some? ==> k'.tugas == tugas.value.value)
           && (uts.Some? ==> k'.uts == uts.value.value) && (uas.Some? ==> k'.uas == uas.value.value))
  {
    var ups := Requested(quiz, tugas, uts, uas);
    ApplyPassIff(k, ups);
    var q := if quiz.Some? then [(Quiz, quiz.value)] else [];
    var t := if tugas.Some? then [(Tugas, tugas.value)] else [];
    var u := if uts.Some? then [(Uts, uts.value)] else [];
    var a := if uas.Some? then [(Uas, uas.value)] else [];
    assert ups == q + t + u + a;
    if Apply(k, ups).1 == Pass {
      if quiz.Some? { assert ups[0] == (Quiz, quiz.value); ApplyAssigns(k, ups, 0); }
      if tugas.Some? { assert ups[|q|] == (Tugas, tugas.value); ApplyAssigns(k, ups, |q|); }
      if uts.Some? { assert ups[|q| + |t|] == (Uts, uts.value); ApplyAssigns(k, ups, |q| + |t|); }
      if uas.Some? { assert ups[|q| + |t| + |u|] == (Uas, uas.value); ApplyAssigns(k, ups, |q| + |t| + |u|); }
    } else {
      if quiz.Some? { assert ups[0] == (Quiz, quiz.value); }
      if tugas.Some? { assert ups[|q|] == (Tugas, tugas.value); }
      if uts.Some? { assert ups[|q| + |t|] == (Uts, uts.value); }
      if uas.Some? { assert ups[|q| + |t| + |u|] == (Uas, uas.value); }
    }
  }

  /** The sequence of setters run by the constructor `Penilaian(quiz, tugas,
      uts, uas)`. */
  function ConstructorRun(quiz: Input, tugas: Input, uts: Input, uas: Input): (ups: seq<(Field, Input)>)
    ensures ups == Requested(Some(quiz), Some(tugas), Some(uts), Some(uas))
  {
    [(Quiz, quiz), (Tugas, tugas), (Uts, uts), (Uas, uas)]
  }

  /** Construction with the default arguments (all zero) always succeeds and
      yields all four components at zero. */
  lemma DefaultConstructionSucceeds()
    ensures Apply(Zero, ConstructorRun(Num(0.0), Num(0.0), Num(0.0), Num(0.0))) == (Zero, Pass)
  {
    var ups := ConstructorRun(Num(0.0), Num(0.0), Num(0.0), Num(0.0));
    assert ups[1..][1..][1..][1..] == [];
  }

  /** `nilai_akhir` before rounding: the weighted sum of the four components,
      which stays within [0, 100]. */
  function NilaiAkhirOf(k: Komponen): (r: real)
    ensures 0.0 <= r <= 100.0
  {
    WQuiz * k.quiz + WTugas * k.tugas + WUts * k.uts + WUas * k.uas
  }

  /** The weights sum to one. */
  lemma WeightsSumToOne()
    ensures WQuiz + WTugas + WUts + WUas == 1.0
  {
  }

  /** The final score is a weighted mean: when every component lies in
      [lo, hi], so does the score. With lo == hi it gives the extremes (all
      components at 100 give 100, all at 0 give 0). */
  lemma NilaiAkhirBetween(k: Komponen, lo: real, hi: real)
    requires forall f :: lo <= k.Get(f) <= hi
    ensures lo <= NilaiAkhirOf(k) <= hi
  {
    assert lo <= k.Get(Quiz) <= hi && lo <= k.Get(Tugas) <= hi;
    assert lo <= k.Get(Uts) <= hi && lo <= k.Get(Uas) <= hi;
    WeightsSumToOne();
  }

  /** Raising any component never lowers the final score. */
  lemma NilaiAkhirMonotone(a: Komponen, b: Komponen)
    requires forall f :: a.Get(f) <= b.Get(f)
    ensures NilaiAkhirOf(a) <= NilaiAkhirOf(b)
  {
    assert a.Get(Quiz) <= b.Get(Quiz) && a.Get(Tugas) <= b.Get(Tugas);
    assert a.Get(Uts) <= b.Get(Uts) && a.Get(Uas) <= b.Get(Uas);
  }

  /** Worked values of the final score. */
  lemma NilaiAkhirExamples()
    ensures NilaiAkhirOf(Komponen(100.0, 100.0, 100.0, 100.0)) == 100.0
    ensures NilaiAkhirOf(Zero) == 0.0
    ensures NilaiAkhirOf(Komponen(80.0, 70.0, 60.0, 50.0)) == 62.0
    ensures NilaiAkhirOf(Komponen(90.0, 85.0, 80.0, 95.0)) == 88.0
  {
  }

  /** The grade components of one student, updated in place by the setters. */
  class Penilaian {
    var quiz: Score
    var tugas: Score
    var uts: Score
    var uas: Score

    /** The components as a value. */
    function Value(): Komponen
      reads this
    {
      Komponen(quiz, tugas, uts, uas)
    }

    /** `Penilaian()` with the default arguments: all four components zero. */
    constructor ()
      ensures Value() == Zero
    {
      quiz, tugas, uts, uas := 0.0, 0.0, 0.0, 0.0;
    }

    /** The four property setters `quiz`, `tugas`, `uts`, `uas`, selected by
        `f`: validate, then assign that one component; on failure nothing
        changes. */
    method Set(f: Field, v: Input) returns (r: Outcome)
      modifies this
      ensures (Value(), r) == SetField(old(Value()), f, v)
      ensures forall g :: g != f ==> Value().Get(g) == old(Value()).Get(g)
    {
      var checked := Validate(v);
      if checked.Err? {
        return Fail(checked.error);
      }
      var s := checked.value;
      match f {
        case Quiz => quiz := s;
        case Tugas => tugas := s;
        case Uts => uts := s;
        case Uas => uas := s;
      }
      r := Pass;
    }

    /** `Penilaian(quiz, tugas, uts, uas)`: starts from zero and runs the four
        setters in order; the first invalid argument raises and no object is
        handed out. */
    static method Create(quiz: Input, tugas: Input, uts: Input, uas: Input) returns (r: Result<Penilaian>)
      ensures var (k, o) := Apply(Zero, ConstructorRun(quiz, tugas, uts, uas));
        && (r.Ok? <==> o == Pass)
        && (r.Ok? ==> fresh(r.value) && r.value.Value() == k)
        && (r.Err? ==> o == Fail(r.error))
    {
      var p := new Penilaian();
      ApplyCons(Zero, (Quiz, quiz), [(Tugas, tugas), (Uts, uts), (Uas, uas)]);
      var o := p.Set(Quiz, quiz);
      if o.Fail? { return Err(o.error); }
      ApplyCons(p.Value(), (Tugas, tugas), [(Uts, uts), (Uas, uas)]);
      o := p.Set(Tugas, tugas);
      if o.Fail? { return Err(o.error); }
      ApplyCons(p.Value(), (Uts, uts), [(Uas, uas)]);
      o := p.Set(Uts, uts);
      if o.Fail? { return Err(o.error); }
      ApplyCons(p.Value(), (Uas, uas), []);
      o := p.Set(Uas, uas);
      if o.Fail? { return Err(o.error); }
      r := Ok(p);
    }

    /** `nilai_akhir`: a pure read of the weighted score, within [0, 100]. */
    function NilaiAkhir(): (r: real)
      reads this
      ensures 0.0 <= r <= 100.0
    {
      NilaiAkhirOf(Value())
    }
  }
}
