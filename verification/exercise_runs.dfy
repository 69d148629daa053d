/**
  Properties of the answer matcher over whole sequences of played notes:
  the invariant `Progress` keeps, `Reset`, and which note sequences pass.
 */
module ExerciseRuns {
  import opened Cards
  import opened Shuffling
  import opened Exercises

  /**
    The invariant of an exercise in play: the step is in range, the notes
    played in it are distinct and all belong to it, and nothing is recorded
    once every step is done.
   */
  predicate WellFormed(e: Exercise)
  {
    && 0 <= e.currentStep <= |e.definition.parts|
    && NoDuplicates(e.currentNotes)
    && (e.currentStep == |e.definition.parts| ==> e.currentNotes == [])
    && (e.currentStep < |e.definition.parts| ==>
          forall i :: 0 <= i < |e.currentNotes| ==> e.currentNotes[i] in e.definition.parts[e.currentStep])
  }

  /** `Progress` keeps the invariant: played notes stay distinct and inside the current step. */
  lemma ProgressKeepsWellFormed(e: Exercise, n: NoteClass)
    requires WellFormed(e) && 0 <= e.currentStep < |e.definition.parts|
    ensures WellFormed(Progress(e, n).exercise)
  {
    var t := Progress(e, n);
    if t.exercise.currentStep == e.currentStep && t.exercise != e {
      var notes := e.currentNotes + [n];
      assert t.exercise.currentNotes == notes;
      assert n !in e.currentNotes;
      forall i, j | 0 <= i < j < |notes|
        ensures notes[i] != notes[j]
      {
        if j == |notes| - 1 {
          assert notes[i] in e.currentNotes;
        }
      }
    }
  }

  /** A created exercise, and any reset one, satisfies the invariant. */
  lemma FreshIsWellFormed(card: Card, theory: Theory, e: Exercise)
    ensures WellFormed(CreateExercise(card, theory))
    ensures WellFormed(Reset(e))
  {
  }

  /** Resetting an exercise built for a card gives exactly a freshly built exercise for that card. */
  lemma ResetMatchesCreate(card: Card, theory: Theory, e: Exercise)
    requires e.definition == CreateExercise(card, theory).definition
    ensures Reset(e) == CreateExercise(card, theory)
  {
  }

  /**
    A failure is not latched: after a wrong note the exercise reacts to the
    next note exactly as if the wrong note had not been played.
   */
  lemma FailIsNotLatched(e: Exercise, wrong: NoteClass, n: NoteClass)
    requires 0 <= e.currentStep < |e.definition.parts|
    requires Progress(e, wrong).state == Fail
    ensures Progress(Progress(e, wrong).exercise, n) == Progress(e, n)
  {
  }

  /** The notes of all steps, one step after the other. */
  function Flatten(parts: seq<seq<NoteClass>>): seq<NoteClass>
  {
    if |parts| == 0 then [] else parts[0] + Flatten(parts[1..])
  }

  /** Playing a scale's single-note steps in order is playing the scale. */
  lemma {:induction false} FlattenSingletons(ns: seq<NoteClass>)
    ensures Flatten(Singletons(ns)) == ns
  {
    if |ns| > 0 {
      var ps := Singletons(ns);
      assert ps[1..] == Singletons(ns[1..]);
      FlattenSingletons(ns[1..]);
      assert ns == [ns[0]] + ns[1..];
    }
  }

  /**
    Feed the played notes one by one while the exercise stays in progress;
    the result is the first terminal transition, or the exercise still in
    progress when the notes run out.
   */
  function Run(e: Exercise, ns: seq<NoteClass>): Transition
    requires 0 <= e.currentStep < |e.definition.parts|
    decreases |ns|
  {
    if |ns| == 0 then Transition(e, InProgress)
    else
      var t := Progress(e, ns[0]);
      if t.state == InProgress then Run(t.exercise, ns[1..]) else t
  }

  /**
    Playing the rest of the current step, distinct notes of it in any order,
    completes the step: the exercise moves to the next step, or passes after
    the last one.
   */
  lemma {:induction false} StepCompletes(e: Exercise, xs: seq<NoteClass>, rest: seq<NoteClass>)
    requires 0 <= e.currentStep < |e.definition.parts|
    requires |xs| > 0
    requires NoDuplicates(e.currentNotes + xs)
    requires forall i :: 0 <= i < |xs| ==> xs[i] in e.definition.parts[e.currentStep]
    requires |e.currentNotes| + |xs| == |e.definition.parts[e.currentStep]|
    ensures var e' := e.(currentStep := e.currentStep + 1, currentNotes := []);
      Run(e, xs + rest) == if e.currentStep + 1 < |e.definition.parts| then Run(e', rest) else Transition(e', Pass)
    decreases |xs|
  {
    var x := xs[0];
    var all := e.currentNotes + xs;
    assert all[|e.currentNotes|] == x;
    assert x !in e.currentNotes by {
      forall i | 0 <= i < |e.currentNotes|
        ensures e.currentNotes[i] != x
      {
        assert all[i] == e.currentNotes[i];
      }
    }
    assert (xs + rest)[0] == x;
    assert (xs + rest)[1..] == xs[1..] + rest;
    if |xs| > 1 {
      var e1 := e.(currentNotes := e.currentNotes + [x]);
      assert Progress(e, x) == Transition(e1, InProgress);
      assert e1.currentNotes + xs[1..] == all;
      StepCompletes(e1, xs[1..], rest);
    }
  }

  /** Every step nonempty and without repeated notes: the steps can be completed. */
  predicate PlayableFrom(parts: seq<seq<NoteClass>>, s: nat)
  {
    forall i :: s <= i < |parts| ==> |parts[i]| > 0 && NoDuplicates(parts[i])
  }

  /** Playing every remaining step's notes in order, from the start of a step, passes the exercise. */
  lemma {:induction false} PlayingAllStepsPasses(e: Exercise)
    requires 0 <= e.currentStep < |e.definition.parts|
    requires e.currentNotes == []
    requires PlayableFrom(e.definition.parts, e.currentStep)
    ensures Run(e, Flatten(e.definition.parts[e.currentStep..])) ==
      Transition(Exercise(e.definition, |e.definition.parts|, []), Pass)
    decreases |e.definition.parts| - e.currentStep
  {
    var parts, s := e.definition.parts, e.currentStep;
    assert parts[s..][1..] == parts[s + 1..];
    var rest := Flatten(parts[s + 1..]);
    assert Flatten(parts[s..]) == parts[s] + rest;
    assert e.currentNotes + parts[s] == parts[s];
    StepCompletes(e, parts[s], rest);
    if s + 1 < |parts| {
      PlayingAllStepsPasses(e.(currentStep := s + 1, currentNotes := []));
    }
  }

  /** A scale exercise is passed by playing the scale's notes in order. */
  lemma ScaleExercisePasses(card: Card, theory: Theory)
    requires card.exerciseType == "scale"
    requires |theory.scaleNotes(card.exerciseDefinition)| > 0
    ensures Run(CreateExercise(card, theory), theory.scaleNotes(card.exerciseDefinition)).state == Pass
  {
    var ns := theory.scaleNotes(card.exerciseDefinition);
    var e := CreateExercise(card, theory);
    FlattenSingletons(ns);
    assert e.definition.parts == Singletons(ns);
    assert e.definition.parts[0..] == e.definition.parts;
    PlayingAllStepsPasses(e);
  }

  /**
    A chord exercise is passed by playing its notes in any order, each once,
    provided the chord has notes and none repeated.
   */
  lemma ChordExercisePasses(card: Card, theory: Theory, played: seq<NoteClass>)
    requires card.exerciseType == "chord"
    requires |theory.chordNotes(card.exerciseDefinition)| > 0
    requires NoDuplicates(played)
    requires |played| == |theory.chordNotes(card.exerciseDefinition)|
    requires forall i :: 0 <= i < |played| ==> played[i] in theory.chordNotes(card.exerciseDefinition)
    ensures Run(CreateExercise(card, theory), played).state == Pass
  {
    var e := CreateExercise(card, theory);
    assert e.currentNotes + played == played;
    StepCompletes(e, played, []);
    assert played + [] == played;
  }

  /**
    A note exercise whose note name is outside the table expects `Nil`,
    which no played note matches: whatever real notes are played, it never
    passes, and the first one fails it. The catalog seeds "Bb" and "Eb".
   */
  lemma {:induction false} UnknownNoteNeverPasses(card: Card, theory: Theory, played: seq<NoteClass>)
    requires card.exerciseType == "note"
    requires card.exerciseDefinition !in NoteSpellings
    requires forall i :: 0 <= i < |played| ==> played[i] != Nil
    ensures Run(CreateExercise(card, theory), played).state != Pass
    ensures |played| > 0 ==> Run(CreateExercise(card, theory), played).state == Fail
  {
    var e := CreateExercise(card, theory);
    assert e.definition.parts == [[Nil]];
    if |played| > 0 {
      assert Progress(e, played[0]).state == Fail;
    }
  }

  /**
    An exercise with no steps is out of `Progress`'s domain from the start:
    a card of an unknown type, or a scale card whose scale has no notes,
    gives such an exercise, and its first played note would index past the
    end of the steps.
   */
  lemma NoStepsCannotProgress(card: Card, theory: Theory)
    requires card.exerciseType !in {"note", "chord", "scale"} ||
             (card.exerciseType == "scale" && theory.scaleNotes(card.exerciseDefinition) == [])
    ensures CreateExercise(card, theory).definition.parts == []
    ensures !(0 <= CreateExercise(card, theory).currentStep < |CreateExercise(card, theory).definition.parts|)
  {
  }

  /** One chord step {C, E, G}: C and E keep it in progress, G passes it. */
  lemma ChordScenario(d: Definition)
    requires d.parts == [[C, E, G]]
    ensures var e0 := Exercise(d, 0, []);
      && Progress(e0, C) == Transition(Exercise(d, 0, [C]), InProgress)
      && Progress(Exercise(d, 0, [C]), E) == Transition(Exercise(d, 0, [C, E]), InProgress)
      && Progress(Exercise(d, 0, [C, E]), G) == Transition(Exercise(d, 1, []), Pass)
  {
  }

  /** Steps {C} then {D}: C moves to the second step, then F fails it. */
  lemma TwoStepScenario(d: Definition)
    requires d.parts == [[C], [D]]
    ensures Progress(Exercise(d, 0, []), C) == Transition(Exercise(d, 1, []), InProgress)
    ensures Progress(Exercise(d, 1, []), F) == Transition(Exercise(d, 1, []), Fail)
  {
  }
}
