/**
  The answer matcher of exercises.go: note classes, the note-name table,
  building an exercise from a card, and the per-note `Progress` step.

  The music-theory library's chord and scale spellers are not part of this
  model; they enter as the two functions of a `Theory` value.
 */
module Exercises {
  import opened Cards

  /** A pitch class without octave; `Nil` is the library's "no note". */
  datatype NoteClass = Nil | C | Cs | D | Ds | E | F | Fs | G | Gs | A | As | B

  /** The result tags of `Progress`. */
  datatype ExerciseState = InProgress | Fail | Pass

  /** The notes of a named chord and of a named scale, as the music-theory library spells them. */
  datatype Theory = Theory(chordNotes: string -> seq<NoteClass>, scaleNotes: string -> seq<NoteClass>)

  /** The spellings the note-name table recognises. */
  const NoteSpellings: set<string> :=
    {"C", "C#", "Cb", "D", "D#", "Db", "E", "F", "F#", "Fb", "G", "G#", "Gb", "A", "A#", "Ab", "B"}

  /**
    The note-name table, as written: a flat maps to the sharp of its own
    letter, and "Bb" and "Eb" are not in it.
   */
  function ParseNote(n: string): (r: NoteClass)
    ensures r == Nil <==> n !in NoteSpellings
  {
    if n == "C" then C
    else if n == "C#" then Cs
    else if n == "Cb" then Cs
    else if n == "D" then D
    else if n == "D#" then Ds
    else if n == "Db" then Ds
    else if n == "E" then E
    else if n == "F" then F
    else if n == "F#" then Fs
    else if n == "Fb" then Fs
    else if n == "G" then G
    else if n == "G#" then Gs
    else if n == "Gb" then Gs
    else if n == "A" then A
    else if n == "A#" then As
    else if n == "Ab" then As
    else if n == "B" then B
    else Nil
  }

  /** The sharp spelling of a note class; `Nil` has none. */
  function Spell(c: NoteClass): string
  {
    match c
    case Nil => ""
    case C => "C"
    case Cs => "C#"
    case D => "D"
    case Ds => "D#"
    case E => "E"
    case F => "F"
    case Fs => "F#"
    case G => "G"
    case Gs => "G#"
    case A => "A"
    case As => "A#"
    case B => "B"
  }

  /** Every note class is named by its sharp spelling, and only `Nil` by none. */
  lemma ParseSpellRoundTrip(c: NoteClass)
    ensures c != Nil ==> ParseNote(Spell(c)) == c
    ensures c == Nil ==> ParseNote(Spell(c)) == Nil
  {
  }

  /**
    Each flat spelling in the table yields the sharp of the same letter, and
    the flats of B and E yield `Nil`.
   */
  lemma FlatsAreSharpsOfTheirLetter(letter: char)
    requires letter in "CDEFGAB"
    ensures letter in "CDFGA" ==> ParseNote([letter, 'b']) == ParseNote([letter, '#']) != Nil
    ensures letter in "BE" ==> ParseNote([letter, 'b']) == Nil
  {
    if letter == 'E' {
      assert [letter, 'b'] == "Eb";
    } else if letter == 'B' {
      assert [letter, 'b'] == "Bb";
    }
  }

  /** Whether `n` occurs in `notes`. */
  function Contains(notes: seq<NoteClass>, n: NoteClass): (b: bool)
    ensures b <==> n in notes
  {
    if |notes| == 0 then false
    else notes[0] == n || Contains(notes[1..], n)
  }

  /** What an exercise expects: its name and the note classes of each step. */
  datatype Definition = Definition(name: string, parts: seq<seq<NoteClass>>)

  /** An exercise in progress: the step being played and the notes of it played so far. */
  datatype Exercise = Exercise(definition: Definition, currentStep: int, currentNotes: seq<NoteClass>)

  /** The updated exercise and the state `Progress` reports. */
  datatype Transition = Transition(exercise: Exercise, state: ExerciseState)

  /** One single-note step per note, in order. */
  function Singletons(ns: seq<NoteClass>): (parts: seq<seq<NoteClass>>)
    ensures |parts| == |ns|
    ensures forall i :: 0 <= i < |ns| ==> parts[i] == [ns[i]]
  {
    if |ns| == 0 then [] else [[ns[0]]] + Singletons(ns[1..])
  }

  /** The exercise for a card, at its first step with nothing played. */
  function CreateExercise(card: Card, theory: Theory): (e: Exercise)
    ensures e.definition.name == card.name
    ensures e.currentStep == 0 && e.currentNotes == []
    ensures card.exerciseType == "note" ==> e.definition.parts == [[ParseNote(card.exerciseDefinition)]]
    ensures card.exerciseType == "chord" ==> e.definition.parts == [theory.chordNotes(card.exerciseDefinition)]
    ensures card.exerciseType == "scale" ==>
      var ns := theory.scaleNotes(card.exerciseDefinition);
      |e.definition.parts| == |ns| && forall i :: 0 <= i < |ns| ==> e.definition.parts[i] == [ns[i]]
    ensures card.exerciseType !in {"note", "chord", "scale"} ==> e.definition.parts == []
  {
    var parts :=
      if card.exerciseType == "note" then [[ParseNote(card.exerciseDefinition)]]
      else if card.exerciseType == "chord" then [theory.chordNotes(card.exerciseDefinition)]
      else if card.exerciseType == "scale" then Singletons(theory.scaleNotes(card.exerciseDefinition))
      else [];
    Exercise(Definition(card.name, parts), 0, [])
  }

  /** The exercise back at its first step with nothing played; the definition is kept. */
  function Reset(e: Exercise): (r: Exercise)
    ensures r.definition == e.definition
    ensures r.currentStep == 0 && r.currentNotes == []
  {
    e.(currentStep := 0, currentNotes := [])
  }

  /**
    Feed one played note to the exercise. A note already played in this step
    is ignored; a note outside the step fails without changing the exercise;
    otherwise the note is recorded, and once the step has as many notes as
    it expects the exercise moves to the next step, passing after the last.
   */
  function Progress(e: Exercise, n: NoteClass): (t: Transition)
    requires 0 <= e.currentStep < |e.definition.parts|
    ensures t.exercise.definition == e.definition
    // a repeated note changes nothing
    ensures n in e.currentNotes ==> t == Transition(e, InProgress)
    // a wrong note fails, and the failure is not recorded in the exercise
    ensures n !in e.currentNotes && n !in e.definition.parts[e.currentStep] ==> t == Transition(e, Fail)
    ensures t.state == Fail ==> t.exercise == e
    // a new correct note that leaves the step incomplete is recorded
    ensures n !in e.currentNotes && n in e.definition.parts[e.currentStep] &&
            |e.currentNotes| + 1 != |e.definition.parts[e.currentStep]| ==>
      t == Transition(e.(currentNotes := e.currentNotes + [n]), InProgress)
    // a new correct note that completes the step advances by exactly one step
    ensures n !in e.currentNotes && n in e.definition.parts[e.currentStep] &&
            |e.currentNotes| + 1 == |e.definition.parts[e.currentStep]| ==>
      t.exercise.currentStep == e.currentStep + 1 && t.exercise.currentNotes == [] &&
      (t.state == Pass <==> e.currentStep + 1 >= |e.definition.parts|) && t.state != Fail
    // Pass exactly when the last step is complete; otherwise the exercise can be played on
    ensures t.state == Pass ==> t.exercise.currentStep == |e.definition.parts|
    ensures t.state == InProgress ==> 0 <= t.exercise.currentStep < |e.definition.parts|
  {
    if Contains(e.currentNotes, n) then Transition(e, InProgress)
    else if !Contains(e.definition.parts[e.currentStep], n) then Transition(e, Fail)
    else
      var notes := e.currentNotes + [n];
      if |notes| == |e.definition.parts[e.currentStep]| then
        var e' := e.(currentStep := e.currentStep + 1, currentNotes := []);
        if e'.currentStep >= |e.definition.parts| then Transition(e', Pass)
        else Transition(e', InProgress)
      else Transition(e.(currentNotes := notes), InProgress)
  }
}
