/**
 Keyboard Mirror: every note-on and note-off has its note number reflected
 around the axis G#4 (MIDI note 68); every other event is passed through.
 The processor keeps no state between events.
 */
module KeyboardMirror {
  import opened MidiEvents

  /** The mirror axis, G#4, as an `i8`. */
  const MIRROR: i8 := 68

  /** `x as i8` for an `u8`: the same eight bits read in two's complement. */
  function AsI8(x: u8): (r: i8)
    ensures (r - x) % 0x100 == 0
  {
    if x < 0x80 then x else x - 0x100
  }

  /** `x as u8` for an `i8`. */
  function AsU8(x: i8): (r: u8)
    ensures (r - x) % 0x100 == 0
  {
    if x >= 0 then x else x + 0x100
  }

  /** The `i8` that an overflowing `i8` operation wraps to (a release build). */
  function WrapI8(x: int): (r: i8)
    ensures (r - x) % 0x100 == 0
    ensures -0x80 <= x < 0x80 ==> r == x
  {
    (x + 0x80) % 0x100 - 0x80
  }

  /**
   An `i8` operation as a debug build runs it: `None` is the overflow panic.
   It panics exactly where the release build's wrap changes the value, and
   otherwise gives the release build's result.
   */
  function CheckedI8(x: int): (r: Option<i8>)
    ensures r.Some? <==> WrapI8(x) == x
    ensures r.Some? ==> r.value == WrapI8(x)
  {
    if -0x80 <= x < 0x80 then Some(x) else None
  }

  /**
   `mirror_note` as a release build runs it: both `i8` subtractions wrap.
   The result is `2 * 68 - note` reduced modulo 256, for every `u8`.
   */
  function MirrorNote(note: u8): (r: u8)
    ensures r == (2 * MIRROR - note) % 0x100
  {
    var distance := WrapI8(AsI8(note) - MIRROR);
    AsU8(WrapI8(MIRROR - distance))
  }

  /** `mirror_note` as a debug build runs it: `None` where a subtraction panics. */
  function MirrorNoteChecked(note: u8): (r: Option<u8>)
    ensures r.Some? <==> 9 <= note <= 127
    ensures r.Some? ==> r.value == 136 - note
  {
    match CheckedI8(AsI8(note) - MIRROR)
    case None => None
    case Some(distance) =>
      match CheckedI8(MIRROR - distance)
      case None => None
      case Some(mirrored) => Some(AsU8(mirrored))
  }

  /** True of an event whose note field the processor rewrites. */
  predicate IsNote(e: NoteEvent)
  {
    e.NoteOn? || e.NoteOff?
  }

  /** The per-event rewrite of `process`: only the note of a note event changes. */
  function MirrorEvent(e: NoteEvent): (r: NoteEvent)
    ensures IsNote(e) ==> r == e.(note := MirrorNote(e.note))
    ensures !IsNote(e) ==> r == e
  {
    match e
    case NoteOn(timing, voiceId, channel, note, velocity) =>
      NoteOn(timing, voiceId, channel, MirrorNote(note), velocity)
    case NoteOff(timing, voiceId, channel, note, velocity) =>
      NoteOff(timing, voiceId, channel, MirrorNote(note), velocity)
    case _ => e
  }

  /**
   The whole output stream, built event by event as the host receives it:
   one rewritten event per input event, at the same position.
   */
  function Mirrored(input: seq<NoteEvent>): (output: seq<NoteEvent>)
    ensures |output| == |input|
    ensures forall i :: 0 <= i < |input| ==> output[i] == MirrorEvent(input[i])
  {
    if input == [] then [] else Mirrored(input[..|input| - 1]) + [MirrorEvent(input[|input| - 1])]
  }

  /**
   The `process` loop: pull each event, send its rewrite. Nothing is kept
   between events, so the output depends on the input alone.
   */
  method Process(input: seq<NoteEvent>) returns (output: seq<NoteEvent>)
    ensures output == Mirrored(input)
  {
    output := [];
    var i := 0;
    while i < |input|
      invariant 0 <= i <= |input|
      invariant output == Mirrored(input[..i])
    {
      var event := input[i];
      match event {
        case NoteOn(timing, voiceId, channel, note, velocity) =>
          var mirrored := MirrorNote(note);
          output := output + [NoteOn(timing, voiceId, channel, mirrored, velocity)];
        case NoteOff(timing, voiceId, channel, note, velocity) =>
          var mirrored := MirrorNote(note);
          output := output + [NoteOff(timing, voiceId, channel, mirrored, velocity)];
        case _ =>
          output := output + [event];
      }
      i := i + 1;
    }
    assert input[..i] == input;
  }

  /** On the notes no subtraction overflows for, the mirror is `136 - note`, again in that range. */
  lemma MirrorNoteInRange(note: u8)
    requires 9 <= note <= 127
    ensures MirrorNote(note) == 136 - note
    ensures 9 <= MirrorNote(note) <= 127
  {
  }

  /** Among MIDI notes, the axis G#4 is the one note that mirrors to itself. */
  lemma MirrorNoteFixedPoint(note: u8)
    requires note <= 127
    ensures MirrorNote(note) == note <==> note == 68
  {
  }

  /** Mirroring twice gives back the note, for every `u8` under wrapping arithmetic. */
  lemma MirrorNoteInvolution(note: u8)
    ensures MirrorNote(MirrorNote(note)) == note
  {
    var m := MirrorNote(note);
    if note <= 136 {
      assert m == 136 - note;
      assert 2 * MIRROR - m == note;
    } else {
      assert m == 392 - note;
      assert 2 * MIRROR - m == note - 0x100;
      assert (note - 0x100) % 0x100 == note;
    }
  }

  /** Intervals invert: the distance between two mirrored notes is the negated distance. */
  lemma MirrorNoteInvertsIntervals(a: u8, b: u8)
    requires 9 <= a <= 127 && 9 <= b <= 127
    ensures MirrorNote(a) - MirrorNote(b) == b - a
  {
    MirrorNoteInRange(a);
    MirrorNoteInRange(b);
  }

  /**
   A debug build computes `mirror_note` exactly for notes 9 to 127 and then
   agrees with the release build; on every other `u8` one of the two `i8`
   subtractions overflows and panics.
   */
  lemma MirrorNoteCheckedDefined(note: u8)
    ensures MirrorNoteChecked(note).Some? <==> 9 <= note <= 127
    ensures MirrorNoteChecked(note).Some? ==> MirrorNoteChecked(note).value == MirrorNote(note)
  {
  }

  /**
   The overflow edge: for notes 0 to 8 the distance fits in `i8` but
   `MIRROR - distance` exceeds 127. A release build wraps it, so the note
   that reaches the host is 128 to 136, outside the MIDI range.
   */
  lemma MirrorNoteOverflowEdge(note: u8)
    requires note <= 8
    ensures CheckedI8(AsI8(note) - MIRROR).Some?
    ensures MIRROR - (AsI8(note) - MIRROR) > 127
    ensures MirrorNote(note) == 136 - note
    ensures 128 <= MirrorNote(note) <= 136
  {
  }

  /** Rewriting an event twice gives back the event. */
  lemma MirrorEventInvolution(e: NoteEvent)
    ensures MirrorEvent(MirrorEvent(e)) == e
  {
    if IsNote(e) {
      MirrorNoteInvolution(e.note);
    }
  }

  /** Running the mirror twice over a stream gives back the stream. */
  lemma MirroredInvolution(input: seq<NoteEvent>)
    ensures Mirrored(Mirrored(input)) == input
  {
    forall i | 0 <= i < |input|
      ensures Mirrored(Mirrored(input))[i] == input[i]
    {
      MirrorEventInvolution(input[i]);
    }
  }

  /** The mirror keeps every event kind and never adds, drops or reorders events. */
  lemma MirroredKeepsKinds(input: seq<NoteEvent>, i: nat)
    requires i < |input|
    ensures Mirrored(input)[i].NoteOn? == input[i].NoteOn?
    ensures Mirrored(input)[i].NoteOff? == input[i].NoteOff?
    ensures Mirrored(input)[i].timing == input[i].timing
    ensures !IsNote(input[i]) ==> Mirrored(input)[i] == input[i]
  {
  }
}
