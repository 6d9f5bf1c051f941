/**
 * The note-collecting loop of save_midi (app.py:75-81): each generated symbol
 * is turned into a note object; a symbol that does not parse is skipped
 * without error. Parsing is an abstract function `parse`, where `None`
 * stands for the construction raising.
 */
module MidiSave {
  import opened Wrappers
  import opened Vocabulary

  /** The parsed notes of the entries that parse, in input order. */
  function Parsed<N>(parse: Note -> Option<N>, entries: seq<Note>): (kept: seq<N>)
    ensures |kept| <= |entries|
    decreases |entries|
  {
    if entries == [] then []
    else
      var kept := Parsed(parse, entries[..|entries| - 1]);
      match parse(entries[|entries| - 1])
      case Some(n) => kept + [n]
      case None => kept
  }

  /** The positions of the entries that parse, in ascending order. */
  function ParsingPositions<N>(parse: Note -> Option<N>, entries: seq<Note>): (ps: seq<nat>)
    ensures forall j :: 0 <= j < |ps| ==> ps[j] < |entries|
    decreases |entries|
  {
    if entries == [] then []
    else
      var ps := ParsingPositions(parse, entries[..|entries| - 1]);
      if parse(entries[|entries| - 1]).Some? then ps + [|entries| - 1] else ps
  }

  /** The j-th kept note is the parse of the entry at the j-th parsing position. */
  lemma {:induction false} ParsedAtPositions<N>(parse: Note -> Option<N>, entries: seq<Note>)
    ensures |Parsed(parse, entries)| == |ParsingPositions(parse, entries)|
    ensures forall j :: 0 <= j < |Parsed(parse, entries)| ==>
      parse(entries[ParsingPositions(parse, entries)[j]]) == Some(Parsed(parse, entries)[j])
    decreases |entries|
  {
    if entries != [] {
      var init := entries[..|entries| - 1];
      ParsedAtPositions(parse, init);
      forall j | 0 <= j < |ParsingPositions(parse, init)|
        ensures entries[ParsingPositions(parse, init)[j]] == init[ParsingPositions(parse, init)[j]]
      {
      }
    }
  }

  /** Parsing positions are strictly increasing, so the kept notes keep the input order. */
  lemma {:induction false} PositionsAscending<N>(parse: Note -> Option<N>, entries: seq<Note>)
    ensures forall j1, j2 :: 0 <= j1 < j2 < |ParsingPositions(parse, entries)| ==>
      ParsingPositions(parse, entries)[j1] < ParsingPositions(parse, entries)[j2]
    decreases |entries|
  {
    if entries != [] {
      PositionsAscending(parse, entries[..|entries| - 1]);
    }
  }

  /** An entry's position is a parsing position exactly when the entry parses. */
  lemma {:induction false} PositionsExact<N>(parse: Note -> Option<N>, entries: seq<Note>, i: int)
    requires 0 <= i < |entries|
    ensures i in ParsingPositions(parse, entries) <==> parse(entries[i]).Some?
    decreases |entries|
  {
    var init := entries[..|entries| - 1];
    if i < |entries| - 1 {
      PositionsExact(parse, init, i);
      assert init[i] == entries[i];
    }
  }

  /** When every entry parses, every entry is kept, each as its own parse. */
  lemma {:induction false} AllParseKeepsAll<N>(parse: Note -> Option<N>, entries: seq<Note>)
    requires forall i :: 0 <= i < |entries| ==> parse(entries[i]).Some?
    ensures |Parsed(parse, entries)| == |entries|
    ensures forall i :: 0 <= i < |entries| ==> Some(Parsed(parse, entries)[i]) == parse(entries[i])
    decreases |entries|
  {
    if entries != [] {
      var init := entries[..|entries| - 1];
      AllParseKeepsAll(parse, init);
    }
  }

  /** When no entry parses, nothing is kept. */
  lemma {:induction false} NoneParseKeepsNone<N>(parse: Note -> Option<N>, entries: seq<Note>)
    requires forall i :: 0 <= i < |entries| ==> parse(entries[i]).None?
    ensures Parsed(parse, entries) == []
    decreases |entries|
  {
    if entries != [] {
      NoneParseKeepsNone(parse, entries[..|entries| - 1]);
    }
  }

  /**
   * save_midi's loop: the notes handed to the MIDI stream are the parses of
   * the entries that parse, in order; failing entries are skipped.
   */
  method SaveMidi<N>(notesList: seq<Note>, parse: Note -> Option<N>) returns (midiNotes: seq<N>)
    ensures midiNotes == Parsed(parse, notesList)
    ensures |midiNotes| <= |notesList|
  {
    midiNotes := [];
    for k := 0 to |notesList|
      invariant midiNotes == Parsed(parse, notesList[..k])
    {
      assert notesList[..k + 1][..k] == notesList[..k];
      match parse(notesList[k]) {
        case Some(n) =>
          midiNotes := midiNotes + [n];
        case None =>
      }
    }
    assert notesList[..|notesList|] == notesList;
  }
}
