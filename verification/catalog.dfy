/**
  The default card catalog of db.go: for each of 17 note names, one note
  card, five chord cards and one major-scale card, all with new-card
  statistics.
 */
module Catalog {
  import opened Cards
  import opened Shuffling
  import opened Exercises

  /** The ease factor of a card that was never recalled. */
  const DefaultEf: real := 2.5

  /** The note names the catalog is built from, in order. */
  const DefaultNotes: seq<string> :=
    ["Ab", "A", "A#", "Bb", "B", "C", "C#", "Db", "D", "D#", "Eb", "E", "F", "F#", "Gb", "G", "G#"]

  /** The chord forms seeded for each note, in order. */
  const ChordForms: seq<string> := ["maj", "min", "non", "aug", "dim"]

  /** Cards seeded per note: the note, five chords, one scale. */
  const CardsPerNote: nat := 7

  /** The number of cards in the default catalog: 17 notes of 7 cards. */
  const CatalogSize: nat := 119

  /** New-card statistics: never recalled, ef 2.5, interval 0. */
  predicate IsNewCard(c: Card)
  {
    c.recalls == 0 && c.ef == DefaultEf && c.interval == 0 && c.lastRecalledAt == ZeroTime
  }

  function MakeDefaultCard(name: string, exerciseType: string, exerciseDefinition: string): (c: Card)
    ensures IsNewCard(c)
  {
    Card(name, 0, DefaultEf, 0, exerciseType, exerciseDefinition, ZeroTime)
  }

  function MakeDefaultCardWithChord(note: string, chordForm: string): (c: Card)
    ensures IsNewCard(c)
  {
    Card(note + chordForm + " (chord)", 0, DefaultEf, 0, "chord", note + chordForm, ZeroTime)
  }

  function MakeDefaultCardWithScale(note: string, scaleForm: string): (c: Card)
    ensures IsNewCard(c)
  {
    Card(note + " " + scaleForm + " (scale)", 0, DefaultEf, 0, "scale", note + " " + scaleForm, ZeroTime)
  }

  /** The seven cards seeded for one note, in order. */
  function CardsForNote(note: string): (r: seq<Card>)
    ensures |r| == CardsPerNote
    ensures forall slot :: 0 <= slot < |r| ==> IsNewCard(r[slot])
  {
    [ MakeDefaultCard(note + " (note)", "note", note),
      MakeDefaultCardWithChord(note, "maj"),
      MakeDefaultCardWithChord(note, "min"),
      MakeDefaultCardWithChord(note, "non"),
      MakeDefaultCardWithChord(note, "aug"),
      MakeDefaultCardWithChord(note, "dim"),
      MakeDefaultCardWithScale(note, "maj") ]
  }

  /** The cards of each note in turn: card `i` is card `i % 7` of note `i / 7`. */
  function CardsFrom(notes: seq<string>): (r: seq<Card>)
    ensures |r| == CardsPerNote * |notes|
    ensures forall i :: 0 <= i < |r| ==> IsNewCard(r[i])
  {
    seq(CardsPerNote * |notes|, i requires 0 <= i < CardsPerNote * |notes| =>
      CardsForNote(notes[i / CardsPerNote])[i % CardsPerNote])
  }

  /** The full default catalog: 17 notes of 7 cards, all new. */
  function DefaultCards(): (r: seq<Card>)
    ensures |r| == CatalogSize
    ensures forall i :: 0 <= i < |r| ==> IsNewCard(r[i])
  {
    CardsFrom(DefaultNotes)
  }

  /**
    The card in position `slot` of a note's seven: the note card, the chords
    in the order of `ChordForms`, then the major scale.
   */
  function SlotCard(note: string, slot: nat): Card
    requires slot < CardsPerNote
  {
    if slot == 0 then Card(note + " (note)", 0, DefaultEf, 0, "note", note, ZeroTime)
    else if slot <= 5 then
      var form := ChordForms[slot - 1];
      Card(note + form + " (chord)", 0, DefaultEf, 0, "chord", note + form, ZeroTime)
    else Card(note + " maj (scale)", 0, DefaultEf, 0, "scale", note + " maj", ZeroTime)
  }

  /** The seven cards of a note are its seven slots. */
  lemma CardsForNoteAt(note: string, slot: nat)
    requires slot < CardsPerNote
    ensures CardsForNote(note)[slot] == SlotCard(note, slot)
  {
    if slot == 6 {
      assert note + " maj (scale)" == note + " " + "maj" + " (scale)";
      assert note + " maj" == note + " " + "maj";
    }
  }

  /** Position `7 * k + slot` of the cards built from `notes` is slot `slot` of the `k`-th note. */
  lemma CardsFromAt(notes: seq<string>, k: nat, slot: nat)
    requires k < |notes| && slot < CardsPerNote
    ensures CardsFrom(notes)[CardsPerNote * k + slot] == SlotCard(notes[k], slot)
  {
    var i := CardsPerNote * k + slot;
    assert i / CardsPerNote == k && i % CardsPerNote == slot;
    CardsForNoteAt(notes[k], slot);
  }

  /** The catalog in order: card `7 * k + slot` is slot `slot` of the `k`-th default note. */
  lemma DefaultCardAt(k: nat, slot: nat)
    requires k < |DefaultNotes| && slot < CardsPerNote
    ensures DefaultCards()[CardsPerNote * k + slot] == SlotCard(DefaultNotes[k], slot)
  {
    CardsFromAt(DefaultNotes, k, slot);
  }

  /** `a + b == c + d` with `b` and `d` of one length splits the same way. */
  lemma AppendCancel(a: string, b: string, c: string, d: string)
    requires a + b == c + d && |b| == |d|
    ensures a == c && b == d
  {
    assert a == (a + b)[..|a|];
    assert c == (c + d)[..|c|];
    assert b == (a + b)[|a|..];
    assert d == (c + d)[|c|..];
  }

  /** The kind of a slot's card, read from the third character from the end of its name. */
  lemma SlotKindChar(note: string, slot: nat)
    requires slot < CardsPerNote
    ensures var name := SlotCard(note, slot).name;
      |name| >= 3 &&
      name[|name| - 3] == (if slot == 0 then 't' else if slot <= 5 then 'r' else 'l')
  {
    var name := SlotCard(note, slot).name;
    if slot == 0 {
      assert name == note + " (note)";
    } else if slot <= 5 {
      assert name == (note + ChordForms[slot - 1]) + " (chord)";
    } else {
      assert name == note + " maj (scale)";
    }
  }

  /** Different slots, or different notes, never share a card name. */
  lemma SlotNameInjective(n1: string, k1: nat, n2: string, k2: nat)
    requires k1 < CardsPerNote && k2 < CardsPerNote
    requires SlotCard(n1, k1).name == SlotCard(n2, k2).name
    ensures n1 == n2 && k1 == k2
  {
    SlotKindChar(n1, k1);
    SlotKindChar(n2, k2);
    if k1 == 0 {
      AppendCancel(n1, " (note)", n2, " (note)");
    } else if k1 <= 5 {
      var f1, f2 := ChordForms[k1 - 1], ChordForms[k2 - 1];
      AppendCancel(n1 + f1, " (chord)", n2 + f2, " (chord)");
      AppendCancel(n1, f1, n2, f2);
    } else {
      AppendCancel(n1, " maj (scale)", n2, " maj (scale)");
    }
  }

  /** Every position below `7 * |notes|` is some slot of some note. */
  lemma Decompose(i: nat, n: nat) returns (k: nat, slot: nat)
    requires i < CardsPerNote * n
    ensures k < n && slot < CardsPerNote && i == CardsPerNote * k + slot
  {
    k, slot := i / CardsPerNote, i % CardsPerNote;
  }

  /** Distinct note names give distinct card names. */
  lemma CardsFromNamesDistinct(notes: seq<string>)
    requires NoDuplicates(notes)
    ensures forall i, j :: 0 <= i < j < |CardsFrom(notes)| ==> CardsFrom(notes)[i].name != CardsFrom(notes)[j].name
  {
    var r := CardsFrom(notes);
    forall i, j | 0 <= i < j < |r|
      ensures r[i].name != r[j].name
    {
      var k1, s1 := Decompose(i, |notes|);
      var k2, s2 := Decompose(j, |notes|);
      CardsFromAt(notes, k1, s1);
      CardsFromAt(notes, k2, s2);
      if r[i].name == r[j].name {
        SlotNameInjective(notes[k1], s1, notes[k2], s2);
      }
    }
  }

  /** The 17 default note names are distinct. */
  lemma DefaultNotesDistinct()
    ensures NoDuplicates(DefaultNotes)
  {
  }

  /** No two default cards share a name, so seeding never overwrites one default with another. */
  lemma DefaultNamesDistinct()
    ensures forall i, j :: 0 <= i < j < CatalogSize ==> DefaultCards()[i].name != DefaultCards()[j].name
  {
    DefaultNotesDistinct();
    CardsFromNamesDistinct(DefaultNotes);
  }

  /** Only slot 0 holds a note card; it names the note and expects it. */
  lemma SlotNoteCard(note: string, slot: nat)
    requires slot < CardsPerNote
    ensures SlotCard(note, slot).exerciseType == "note" <==> slot == 0
    ensures slot == 0 ==> SlotCard(note, slot).name == note + " (note)" && SlotCard(note, slot).exerciseDefinition == note
  {
    if 0 < slot <= 5 {
      assert SlotCard(note, slot).exerciseType == "chord";
    } else if slot == 6 {
      assert SlotCard(note, slot).exerciseType == "scale";
    }
  }

  /** Among the cards built from `notes`, the note cards are exactly slot 0 of each note, and name and expect that note. */
  lemma CardsFromNoteCards(notes: seq<string>, k: nat, slot: nat)
    requires k < |notes| && slot < CardsPerNote
    ensures CardsFrom(notes)[CardsPerNote * k + slot].exerciseType == "note" <==> slot == 0
    ensures slot == 0 ==>
      CardsFrom(notes)[CardsPerNote * k].name == notes[k] + " (note)" &&
      CardsFrom(notes)[CardsPerNote * k].exerciseDefinition == notes[k]
  {
    CardsFromAt(notes, k, slot);
    SlotNoteCard(notes[k], slot);
  }

  /** Of the default note names, only "Bb" and "Eb" are missing from the note-name table. */
  lemma DefaultNoteParses(k: nat)
    requires k < |DefaultNotes|
    ensures ParseNote(DefaultNotes[k]) == Nil <==> DefaultNotes[k] in {"Bb", "Eb"}
  {
  }

  /**
    A default note card's exercise expects `Nil` exactly when its note name
    is "Bb" or "Eb"; those are the notes at positions 3 and 10.
   */
  lemma UnparsableDefaultNotes(k: nat, slot: nat)
    requires k < |DefaultNotes| && slot < CardsPerNote
    requires DefaultCards()[CardsPerNote * k + slot].exerciseType == "note"
    ensures slot == 0
    ensures DefaultCards()[CardsPerNote * k].name == DefaultNotes[k] + " (note)"
    ensures ParseNote(DefaultCards()[CardsPerNote * k].exerciseDefinition) == Nil <==>
      DefaultCards()[CardsPerNote * k].exerciseDefinition in {"Bb", "Eb"}
    ensures DefaultNotes[3] == "Bb" && DefaultNotes[10] == "Eb"
  {
    CardsFromNoteCards(DefaultNotes, k, slot);
    DefaultNoteParses(k);
  }

  /**
    The default note cards for "Db", "Gb" and "Ab" (notes 7, 14 and 0) expect
    the sharp of their own letter, not the pitch the name denotes, so playing
    that pitch (C#, F# or G#) fails them.
   */
  lemma FlatNoteCardsRejectTheirPitch(k: nat, theory: Theory)
    requires k < |DefaultNotes| && DefaultNotes[k] in {"Db", "Gb", "Ab"}
    ensures var pitch := if DefaultNotes[k] == "Db" then Cs else if DefaultNotes[k] == "Gb" then Fs else Gs;
      var e := CreateExercise(DefaultCards()[CardsPerNote * k], theory);
      && e.definition.parts == [[ParseNote(DefaultNotes[k])]]
      && ParseNote(DefaultNotes[k]) != pitch
      && Progress(e, pitch) == Transition(e, Fail)
    ensures DefaultNotes[0] == "Ab" && DefaultNotes[7] == "Db" && DefaultNotes[14] == "Gb"
  {
    CardsFromNoteCards(DefaultNotes, k, 0);
  }
}
