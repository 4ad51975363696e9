/**
 Fake Sustain: while the configured pedal controller is held, note-offs are
 withheld and remembered per note number; when the pedal is released they
 are all sent, and forgotten. Everything else passes through.

 The order in which the remembered note-offs are sent is the iteration
 order of a hash map, which is unspecified, so one event's effect is a
 relation (`Step`) rather than a function: it fixes the new state and which
 events are sent, and leaves the order of the flushed note-offs open.
 */
module FakeSustain {
  import opened MidiEvents

  /** Whether the pedal controller event itself is still sent on. */
  datatype BlockCC = Pass | Block

  /** A controller number as the integer parameter allows it (0 to 127). */
  type ControllerNumber = x: int | 0 <= x < 128

  /** The two plugin parameters, read-only for the processor. */
  datatype Params = Params(cc: ControllerNumber, block: BlockCC)

  /** The parameters' defaults: the sustain pedal, controller 64, passed on. */
  const DefaultParams := Params(64, Pass)

  /** The processor's state: pending note-offs by note number, and the pedal. */
  datatype SustainState = SustainState(notes: map<u8, NoteEvent>, held: bool)

  const InitialState := SustainState(map[], false)

  /** Every pending entry is a note-off stored under its own note number. */
  ghost predicate KeyedByNote(m: map<u8, NoteEvent>)
  {
    forall k :: k in m ==> m[k].NoteOff? && m[k].note == k
  }

  /** The state invariant: nothing is pending while the pedal is up. */
  ghost predicate Inv(s: SustainState)
  {
    KeyedByNote(s.notes) && (!s.held ==> s.notes == map[])
  }

  /** The pedal threshold: strictly above one half counts as held. */
  predicate PedalDown(value: real)
  {
    value > 0.5
  }

  /**
   `f` lists the pending note-offs of `m` in some order: it has as many
   entries as `m`, each is the entry `m` keeps for its note, and no note
   appears twice.
   */
  ghost predicate IsDrainOf(f: seq<NoteEvent>, m: map<u8, NoteEvent>)
  {
    && |f| == |m|
    && (forall i :: 0 <= i < |f| ==> f[i].NoteOff? && f[i].note in m && m[f[i].note] == f[i])
    && (forall i, j :: 0 <= i < j < |f| ==> f[i].note != f[j].note)
  }

  /** The pedal event itself as it is sent on, or not, after the flush. */
  function Echo(e: NoteEvent, p: Params): (r: seq<NoteEvent>)
  {
    if p.block == Pass then [e] else []
  }

  /**
   One pass of the decision loop: in state `s`, event `e` leads to state
   `s'` and the events `out` are sent, in that order. One event sends at
   most the pending note-offs and itself, and adds at most one entry.
   */
  ghost predicate Step(s: SustainState, e: NoteEvent, p: Params, s': SustainState, out: seq<NoteEvent>)
    ensures Step(s, e, p, s', out) ==> |out| <= |s.notes| + 1
    ensures Step(s, e, p, s', out) ==> |s'.notes| <= |s.notes| + 1
  {
    match e
    case NoteOff(_, _, _, note, _) =>
      if s.held then s' == s.(notes := s.notes[note := e]) && out == []
      else s' == s && out == [e]
    case MidiCC(_, _, cc, value) =>
      if cc == p.cc then
        var flush := s.held && !PedalDown(value);
        var echo := Echo(e, p);
        && s' == SustainState(if flush then map[] else s.notes, PedalDown(value))
        && |echo| <= |out|
        && out[|out| - |echo|..] == echo
        && (if flush then IsDrainOf(out[..|out| - |echo|], s.notes) else |out| == |echo|)
      else s' == s && out == [e]
    case _ => s' == s && out == [e]
  }

  /**
   A run over a block of events: `states[i]` is the state before `input[i]`
   and `chunks[i]` what was sent for it.
   */
  ghost predicate Run(states: seq<SustainState>, input: seq<NoteEvent>, p: Params, chunks: seq<seq<NoteEvent>>)
  {
    && |states| == |input| + 1
    && |chunks| == |input|
    && forall i :: 0 <= i < |input| ==> Step(states[i], input[i], p, states[i + 1], chunks[i])
  }

  /** The concatenation of what was sent for each event. */
  function Flatten(chunks: seq<seq<NoteEvent>>): (r: seq<NoteEvent>)
  {
    if chunks == [] then [] else Flatten(chunks[..|chunks| - 1]) + chunks[|chunks| - 1]
  }

  class FakeSustain {
    var notes: map<u8, NoteEvent>
    var sustainHeld: bool

    ghost function State(): SustainState
      reads this
    {
      SustainState(notes, sustainHeld)
    }

    ghost predicate Valid()
      reads this
    {
      Inv(State())
    }

    /** A new processor: nothing pending and the pedal up. */
    constructor ()
      ensures State() == InitialState
      ensures Valid()
    {
      notes := map[];
      sustainHeld := false;
    }

    /** `drain()`: removes every pending note-off and returns them, in some order. */
    method Drain() returns (flushed: seq<NoteEvent>)
      requires KeyedByNote(notes)
      modifies this`notes
      ensures notes == map[]
      ensures IsDrainOf(flushed, old(notes))
    {
      ghost var all := notes;
      flushed := [];
      while notes != map[]
        invariant notes.Keys <= all.Keys
        invariant forall k :: k in notes ==> notes[k] == all[k]
        invariant |flushed| + |notes| == |all|
        invariant forall i :: 0 <= i < |flushed| ==>
          flushed[i].NoteOff? && flushed[i].note in all && all[flushed[i].note] == flushed[i] && flushed[i].note !in notes
        invariant forall i, j :: 0 <= i < j < |flushed| ==> flushed[i].note != flushed[j].note
        decreases |notes|
      {
        var k :| k in notes;
        flushed := flushed + [notes[k]];
        assert (notes - {k}).Keys == notes.Keys - {k};
        notes := notes - {k};
      }
    }

    /** The body of the decision loop for one event; returns what it sends. */
    method HandleEvent(event: NoteEvent, p: Params) returns (out: seq<NoteEvent>)
      requires Valid()
      modifies this
      ensures Valid()
      ensures Step(old(State()), event, p, State(), out)
    {
      out := [];
      var sendEvent := true;
      match event {
        case NoteOff(_, _, _, note, _) =>
          // Gather note-offs while the pedal is held
          if sustainHeld {
            notes := notes[note := event];
            sendEvent := false;
          }
        case MidiCC(_, _, cc, value) =>
          if cc == p.cc {
            // Send the gathered note-offs when the pedal is released
            var sustainHeldNew := PedalDown(value);
            if sustainHeld && !sustainHeldNew {
              out := Drain();
            }
            sustainHeld := sustainHeldNew;
            if p.block == Block {
              sendEvent := false;
            }
          }
        case _ =>
      }
      if sendEvent {
        out := out + [event];
      }
    }

    /**
     `process`: handles the events of one block in order and returns all it
     sent; `states` and `chunks` record the run event by event.
     */
    method Process(input: seq<NoteEvent>, p: Params)
      returns (output: seq<NoteEvent>, ghost states: seq<SustainState>, ghost chunks: seq<seq<NoteEvent>>)
      requires Valid()
      modifies this
      ensures Valid()
      ensures Run(states, input, p, chunks)
      ensures states[0] == old(State()) && states[|input|] == State()
      ensures output == Flatten(chunks)
    {
      output, states, chunks := [], [State()], [];
      var i := 0;
      while i < |input|
        invariant 0 <= i <= |input|
        invariant Valid()
        invariant |states| == i + 1 && |chunks| == i
        invariant states[0] == old(State()) && states[i] == State()
        invariant forall j :: 0 <= j < i ==> Step(states[j], input[j], p, states[j + 1], chunks[j])
        invariant output == Flatten(chunks)
      {
        var out := HandleEvent(input[i], p);
        assert (chunks + [out])[..i] == chunks;
        output, states, chunks := output + out, states + [State()], chunks + [out];
        i := i + 1;
      }
    }
  }

  /** Helper: after the first flushed note-off, the rest drains the map without its note. */
  lemma DrainTail(f: seq<NoteEvent>, m: map<u8, NoteEvent>)
    requires IsDrainOf(f, m) && f != []
    ensures f[0].NoteOff? && f[0].note in m && m[f[0].note] == f[0]
    ensures IsDrainOf(f[1..], m - {f[0].note})
    ensures forall i :: 0 <= i < |f[1..]| ==> f[1..][i].note != f[0].note
  {
    var rest := m - {f[0].note};
    assert rest.Keys == m.Keys - {f[0].note};
    forall i | 0 <= i < |f[1..]|
      ensures f[1..][i].note != f[0].note
    {
      assert f[0].note != f[i + 1].note;
    }
  }

  /** Every pending note-off is flushed exactly once, and nothing else is flushed. */
  lemma {:induction false} DrainEmitsEachOnce(f: seq<NoteEvent>, m: map<u8, NoteEvent>)
    requires IsDrainOf(f, m)
    ensures forall k :: k in m ==> multiset(f)[m[k]] == 1
    ensures forall x :: x in f ==> x in m.Values
    decreases |f|
  {
    if f == [] {
      assert |m.Keys| == 0;
    } else {
      var k0 := f[0].note;
      var rest := m - {k0};
      DrainTail(f, m);
      DrainEmitsEachOnce(f[1..], rest);
      assert f == [f[0]] + f[1..];
      assert multiset(f) == multiset{f[0]} + multiset(f[1..]);
      forall k | k in m
        ensures multiset(f)[m[k]] == 1
      {
        if k == k0 {
          assert m[k0] !in f[1..];
        } else {
          assert k in rest && rest[k] == m[k];
        }
      }
      assert m[k0] in m.Values;
    }
  }

  /** Any two flush orders of the same pending note-offs send the same events. */
  lemma DrainOrderIrrelevant(f1: seq<NoteEvent>, f2: seq<NoteEvent>, m: map<u8, NoteEvent>)
    requires IsDrainOf(f1, m) && IsDrainOf(f2, m)
    ensures multiset(f1) == multiset(f2)
  {
    DrainEmitsEachOnce(f1, m);
    DrainEmitsEachOnce(f2, m);
    forall x
      ensures multiset(f1)[x] == multiset(f2)[x]
    {
      if x in m.Values {
        var k :| k in m && m[k] == x;
      }
    }
  }

  /** Helper: what one step sends and keeps pending was received or pending before. */
  lemma StepEmitsOnlyReceived(s: SustainState, e: NoteEvent, p: Params, s': SustainState, out: seq<NoteEvent>)
    requires Step(s, e, p, s', out)
    ensures forall x :: x in out ==> x == e || x in s.notes.Values
    ensures forall x :: x in s'.notes.Values ==> x == e || x in s.notes.Values
  {
    if e.MidiCC? && e.cc == p.cc && s.held && !PedalDown(e.value) {
      var n := |out| - |Echo(e, p)|;
      assert out == out[..n] + out[n..];
      forall x | x in out[..n]
        ensures x in s.notes.Values
      {
        var i :| 0 <= i < n && out[..n][i] == x;
        assert s.notes[out[..n][i].note] == x;
      }
    }
    forall x | x in s'.notes.Values
      ensures x == e || x in s.notes.Values
    {
      var k :| k in s'.notes && s'.notes[k] == x;
      if !(e.NoteOff? && k == e.note) {
        assert k in s.notes;
      }
    }
  }

  /** The invariant holds after every event. */
  lemma StepPreservesInv(s: SustainState, e: NoteEvent, p: Params, s': SustainState, out: seq<NoteEvent>)
    requires Inv(s) && Step(s, e, p, s', out)
    ensures Inv(s')
  {
  }

  /** Along a run from a state meeting the invariant, every state meets it. */
  lemma {:induction false} RunPreservesInv(states: seq<SustainState>, input: seq<NoteEvent>, p: Params,
                                           chunks: seq<seq<NoteEvent>>, i: nat)
    requires Run(states, input, p, chunks) && Inv(states[0]) && i < |states|
    ensures Inv(states[i])
    decreases i
  {
    if i > 0 {
      RunPreservesInv(states, input, p, chunks, i - 1);
      StepPreservesInv(states[i - 1], input[i - 1], p, states[i], chunks[i - 1]);
    }
  }

  /** A run sends only events it received or that were pending when it began. */
  lemma {:induction false} RunEmitsOnlyReceived(states: seq<SustainState>, input: seq<NoteEvent>, p: Params,
                                                chunks: seq<seq<NoteEvent>>)
    requires Run(states, input, p, chunks)
    ensures forall x :: x in Flatten(chunks) ==> x in input || x in states[0].notes.Values
    ensures forall x :: x in states[|input|].notes.Values ==> x in input || x in states[0].notes.Values
  {
    var n := |input|;
    if n > 0 {
      var input', chunks' := input[..n - 1], chunks[..n - 1];
      assert Run(states[..n], input', p, chunks');
      RunEmitsOnlyReceived(states[..n], input', p, chunks');
      assert Step(states[n - 1], input[n - 1], p, states[n], chunks[n - 1]);
      StepEmitsOnlyReceived(states[n - 1], input[n - 1], p, states[n], chunks[n - 1]);
      assert input == input' + [input[n - 1]];
      assert Flatten(chunks) == Flatten(chunks') + chunks[n - 1];
    }
  }

  /** Helper: the note numbers below `n`, and how many there are. */
  ghost function NotesBelow(n: nat): (r: set<u8>)
    requires n <= 0x100
    ensures forall k :: k in r <==> 0 <= k < n
    ensures |r| == n
  {
    if n == 0 then {} else NotesBelow(n - 1) + {n - 1}
  }

  /** Pending note-offs for MIDI notes (0 to 127) never number more than 128. */
  lemma CapacityBound(m: map<u8, NoteEvent>)
    requires forall k :: k in m ==> k < 128
    ensures |m| <= 128
  {
    var all := NotesBelow(128);
    assert m.Keys <= all;
    assert all == m.Keys + (all - m.Keys);
    assert m.Keys !! (all - m.Keys);
  }

  /** True when every note-off of the block is for a MIDI note. */
  ghost predicate MidiNoteOffsOnly(input: seq<NoteEvent>)
  {
    forall i :: 0 <= i < |input| && input[i].NoteOff? ==> input[i].note < 128
  }

  /** With MIDI notes only, the pending map stays within its 128 preallocated slots. */
  lemma {:induction false} RunWithinCapacity(states: seq<SustainState>, input: seq<NoteEvent>, p: Params,
                                             chunks: seq<seq<NoteEvent>>, i: nat)
    requires Run(states, input, p, chunks) && MidiNoteOffsOnly(input) && i < |states|
    requires forall k :: k in states[0].notes ==> k < 128
    ensures forall k :: k in states[i].notes ==> k < 128
    ensures |states[i].notes| <= 128
    decreases i
  {
    if i > 0 {
      RunWithinCapacity(states, input, p, chunks, i - 1);
      assert Step(states[i - 1], input[i - 1], p, states[i], chunks[i - 1]);
    }
    CapacityBound(states[i].notes);
  }

  /**
   On the pedal controller: the pedal is held afterwards exactly when the
   value is above one half; the pending note-offs are all flushed only on a
   release, and before the pedal event; the pedal event is sent exactly
   when the option says `Pass`.
   */
  lemma PedalStep(s: SustainState, e: NoteEvent, p: Params, s': SustainState, out: seq<NoteEvent>)
    requires Step(s, e, p, s', out) && e.MidiCC? && e.cc == p.cc
    ensures s'.held == (e.value > 0.5)
    ensures |out| == |Echo(e, p)| + (if s.held && e.value <= 0.5 then |s.notes| else 0)
    ensures e in out <==> p.block == Pass
    ensures p.block == Pass ==> out[|out| - 1] == e
  {
    if p.block == Pass {
      assert out[|out| - 1..] == [e];
      assert out[|out| - 1] == e;
    } else if s.held && !PedalDown(e.value) {
      assert out[..|out|] == out;
      assert e !in out by {
        if i :| 0 <= i < |out| && out[i] == e {
          assert out[..|out|][i].NoteOff?;
        }
      }
    }
  }

  /** One event, two executions: same new state, same events sent, up to order. */
  lemma StepDeterministic(s: SustainState, e: NoteEvent, p: Params,
                          s1: SustainState, out1: seq<NoteEvent>, s2: SustainState, out2: seq<NoteEvent>)
    requires Inv(s) && Step(s, e, p, s1, out1) && Step(s, e, p, s2, out2)
    ensures s1 == s2
    ensures multiset(out1) == multiset(out2)
  {
    if e.MidiCC? && e.cc == p.cc && s.held && !PedalDown(e.value) {
      var n1, n2 := |out1| - |Echo(e, p)|, |out2| - |Echo(e, p)|;
      assert out1 == out1[..n1] + out1[n1..];
      assert out2 == out2[..n2] + out2[n2..];
      DrainOrderIrrelevant(out1[..n1], out2[..n2], s.notes);
    }
  }

  /** True when no event of the block presses the pedal. */
  ghost predicate PedalNeverPressed(input: seq<NoteEvent>, p: Params)
  {
    forall i :: 0 <= i < |input| && input[i].MidiCC? && input[i].cc == p.cc ==> input[i].value <= 0.5
  }

  /** With the pedal up throughout and `Pass`, the processor sends its input unchanged. */
  lemma {:induction false} PedalUpPassesThrough(states: seq<SustainState>, input: seq<NoteEvent>, p: Params,
                                                chunks: seq<seq<NoteEvent>>)
    requires Run(states, input, p, chunks) && p.block == Pass
    requires !states[0].held && PedalNeverPressed(input, p)
    ensures Flatten(chunks) == input
    ensures states[|input|] == states[0]
  {
    var n := |input|;
    if n > 0 {
      var input', chunks' := input[..n - 1], chunks[..n - 1];
      assert Run(states[..n], input', p, chunks');
      PedalUpPassesThrough(states[..n], input', p, chunks');
      assert Step(states[n - 1], input[n - 1], p, states[n], chunks[n - 1]);
      assert input == input' + [input[n - 1]];
    }
  }

  /** True when every event of the block is a note-off. */
  ghost predicate AllNoteOffs(input: seq<NoteEvent>)
  {
    forall i :: 0 <= i < |input| ==> input[i].NoteOff?
  }

  /** The note numbers of a block of note-offs. */
  ghost function NoteSet(input: seq<NoteEvent>): (r: set<u8>)
    requires AllNoteOffs(input)
  {
    set i | 0 <= i < |input| :: input[i].note
  }

  /** Helper: the notes of a block are the notes of its prefix and of its last event. */
  lemma NoteSetSnoc(input: seq<NoteEvent>)
    requires AllNoteOffs(input) && input != []
    ensures AllNoteOffs(input[..|input| - 1])
    ensures NoteSet(input) == NoteSet(input[..|input| - 1]) + {input[|input| - 1].note}
  {
    var n, input' := |input|, input[..|input| - 1];
    forall k | k in NoteSet(input)
      ensures k in NoteSet(input') + {input[n - 1].note}
    {
      var i :| 0 <= i < n && input[i].note == k;
      if i < n - 1 { assert input'[i] == input[i]; }
    }
    forall k | k in NoteSet(input')
      ensures k in NoteSet(input)
    {
      var i :| 0 <= i < n - 1 && input'[i].note == k;
      assert input[i] == input'[i];
    }
  }

  /** Helper: a note-off while held is stored under its note and sends nothing. */
  lemma HeldNoteOffStep(s: SustainState, e: NoteEvent, p: Params, s': SustainState, out: seq<NoteEvent>)
    requires s.held && e.NoteOff? && Step(s, e, p, s', out)
    ensures s' == SustainState(s.notes[e.note := e], true)
    ensures out == []
  {
  }

  /**
   While the pedal is held, a block of note-offs sends nothing and keeps the
   pedal held; afterwards one entry is pending per note number, for the
   notes pending before and the notes received.
   */
  lemma {:induction false} HeldNoteOffsPending(states: seq<SustainState>, input: seq<NoteEvent>, p: Params,
                                               chunks: seq<seq<NoteEvent>>)
    requires Run(states, input, p, chunks) && states[0].held && AllNoteOffs(input)
    ensures Flatten(chunks) == []
    ensures states[|input|].held
    ensures states[|input|].notes.Keys == states[0].notes.Keys + NoteSet(input)
  {
    var n := |input|;
    if n > 0 {
      var input', chunks' := input[..n - 1], chunks[..n - 1];
      assert Run(states[..n], input', p, chunks');
      HeldNoteOffsPending(states[..n], input', p, chunks');
      var e := input[n - 1];
      HeldNoteOffStep(states[n - 1], e, p, states[n], chunks[n - 1]);
      assert Flatten(chunks) == Flatten(chunks') + chunks[n - 1];
      NoteSetSnoc(input);
    }
  }

  /** True when no note-off after `input[i]` in the block is for the same note. */
  ghost predicate LatestFor(input: seq<NoteEvent>, i: nat)
    requires AllNoteOffs(input) && i < |input|
  {
    forall j :: i < j < |input| ==> input[j].note != input[i].note
  }

  /** While the pedal is held, the entry pending for a note is the latest note-off for it. */
  lemma {:induction false} HeldNoteOffsLatestWins(states: seq<SustainState>, input: seq<NoteEvent>, p: Params,
                                                  chunks: seq<seq<NoteEvent>>, i: nat)
    requires Run(states, input, p, chunks) && states[0].held && AllNoteOffs(input)
    requires i < |input| && LatestFor(input, i)
    ensures input[i].note in states[|input|].notes
    ensures states[|input|].notes[input[i].note] == input[i]
  {
    var n := |input|;
    var input', chunks' := input[..n - 1], chunks[..n - 1];
    assert Run(states[..n], input', p, chunks');
    HeldNoteOffsPending(states[..n], input', p, chunks');
    var e := input[n - 1];
    HeldNoteOffStep(states[n - 1], e, p, states[n], chunks[n - 1]);
    if i < n - 1 {
      assert e.note != input[i].note;
      assert LatestFor(input', i) by {
        forall j | i < j < n - 1
          ensures input'[j].note != input'[i].note
        {
          assert input'[j] == input[j];
        }
      }
      HeldNoteOffsLatestWins(states[..n], input', p, chunks', i);
    }
  }

  /** Helper: pressing the pedal from the initial state sends at most the pedal event. */
  lemma PressFromInitial(s: SustainState, e: NoteEvent, p: Params, s': SustainState, out: seq<NoteEvent>)
    requires s == InitialState && e.MidiCC? && e.cc == p.cc && e.value > 0.5
    requires Step(s, e, p, s', out)
    ensures s' == SustainState(map[], true)
    ensures out == Echo(e, p)
  {
    assert out == out[|out| - |Echo(e, p)|..];
  }

  /** Helper: a release with one note-off pending sends it, then the pedal event if passed. */
  lemma ReleaseOfOne(s: SustainState, e: NoteEvent, p: Params, s': SustainState, out: seq<NoteEvent>, x: NoteEvent)
    requires x.NoteOff? && s.held && s.notes == map[x.note := x]
    requires e.MidiCC? && e.cc == p.cc && e.value <= 0.5
    requires Step(s, e, p, s', out)
    ensures out == [x] + Echo(e, p)
    ensures s' == InitialState
  {
    var n := |out| - |Echo(e, p)|;
    assert out == out[..n] + out[n..];
    assert out[..n][0].note in s.notes;
  }

  /** Helper: flattening the chunks of a four-event block. */
  lemma FlattenFour(c: seq<seq<NoteEvent>>)
    requires |c| == 4
    ensures Flatten(c) == c[0] + c[1] + c[2] + c[3]
  {
    assert c[..3][..2] == c[..2] && c[..2][..1] == c[..1] && c[..1][..0] == [];
    assert Flatten(c[..1]) == c[0];
    assert Flatten(c[..2]) == c[0] + c[1];
    assert Flatten(c[..3]) == c[0] + c[1] + c[2];
  }

  // A block in which a note is played while the pedal is held.
  const PedalPress := MidiCC(0, 0, 64, 1.0)
  const KeyPress := NoteOn(10, None, 0, 60, 0.8)
  const KeyRelease := NoteOff(20, None, 0, 60, 0.0)
  const PedalRelease := MidiCC(30, 0, 64, 0.0)
  const HeldNoteBlock := [PedalPress, KeyPress, KeyRelease, PedalRelease]

  /**
   Default parameters: the note-off is held back until the pedal is
   released and is then sent just before the release event.
   */
  lemma HeldNoteScenario(states: seq<SustainState>, chunks: seq<seq<NoteEvent>>)
    requires Run(states, HeldNoteBlock, DefaultParams, chunks) && states[0] == InitialState
    ensures chunks == [[PedalPress], [KeyPress], [], [KeyRelease, PedalRelease]]
    ensures Flatten(chunks) == [PedalPress, KeyPress, KeyRelease, PedalRelease]
    ensures states[4] == InitialState
  {
    var p := DefaultParams;
    assert Step(states[0], PedalPress, p, states[1], chunks[0]);
    PressFromInitial(states[0], PedalPress, p, states[1], chunks[0]);
    assert Step(states[1], KeyPress, p, states[2], chunks[1]);
    assert states[2] == states[1] && chunks[1] == [KeyPress];
    assert Step(states[2], KeyRelease, p, states[3], chunks[2]);
    assert states[3] == SustainState(map[60 := KeyRelease], true) && chunks[2] == [];
    assert Step(states[3], PedalRelease, p, states[4], chunks[3]);
    ReleaseOfOne(states[3], PedalRelease, p, states[4], chunks[3], KeyRelease);
    assert chunks[3] == [KeyRelease, PedalRelease];
    FlattenFour(chunks);
  }

  /** Helper: what each event of the held-note block sends under `Block`. */
  lemma HeldNoteBlockedChunks(states: seq<SustainState>, chunks: seq<seq<NoteEvent>>)
    requires Run(states, HeldNoteBlock, Params(64, Block), chunks) && states[0] == InitialState
    ensures chunks == [[], [KeyPress], [], [KeyRelease]]
  {
    var p := Params(64, Block);
    assert Step(states[0], PedalPress, p, states[1], chunks[0]);
    PressFromInitial(states[0], PedalPress, p, states[1], chunks[0]);
    assert Step(states[1], KeyPress, p, states[2], chunks[1]);
    assert states[2] == states[1] && chunks[1] == [KeyPress];
    assert Step(states[2], KeyRelease, p, states[3], chunks[2]);
    assert states[3] == SustainState(map[60 := KeyRelease], true) && chunks[2] == [];
    assert Step(states[3], PedalRelease, p, states[4], chunks[3]);
    ReleaseOfOne(states[3], PedalRelease, p, states[4], chunks[3], KeyRelease);
    assert chunks[3] == [KeyRelease];
  }

  /** With `Block` the pedal events are swallowed; the note-off still waits for the release. */
  lemma HeldNoteBlockedScenario(states: seq<SustainState>, chunks: seq<seq<NoteEvent>>)
    requires Run(states, HeldNoteBlock, Params(64, Block), chunks) && states[0] == InitialState
    ensures chunks[0] == [] && chunks[2] == []
    ensures Flatten(chunks) == [KeyPress, KeyRelease]
  {
    HeldNoteBlockedChunks(states, chunks);
    FlattenFour(chunks);
  }

  // Two note-offs for the same note while the pedal is held.
  const EarlyRelease := NoteOff(5, None, 0, 60, 0.2)
  const LateRelease := NoteOff(8, None, 0, 60, 0.7)
  const RepeatedReleaseBlock := [PedalPress, EarlyRelease, LateRelease, PedalRelease]

  /** The later note-off replaces the earlier one; only it is sent on release. */
  lemma LastNoteOffWinsScenario(states: seq<SustainState>, chunks: seq<seq<NoteEvent>>)
    requires Run(states, RepeatedReleaseBlock, DefaultParams, chunks) && states[0] == InitialState
    ensures states[3].notes == map[60 := LateRelease]
    ensures Flatten(chunks) == [PedalPress, LateRelease, PedalRelease]
  {
    var p := DefaultParams;
    assert Step(states[0], PedalPress, p, states[1], chunks[0]);
    PressFromInitial(states[0], PedalPress, p, states[1], chunks[0]);
    assert Step(states[1], EarlyRelease, p, states[2], chunks[1]);
    assert states[2] == SustainState(map[60 := EarlyRelease], true) && chunks[1] == [];
    assert Step(states[2], LateRelease, p, states[3], chunks[2]);
    assert states[3] == SustainState(map[60 := LateRelease], true) && chunks[2] == [];
    assert Step(states[3], PedalRelease, p, states[4], chunks[3]);
    ReleaseOfOne(states[3], PedalRelease, p, states[4], chunks[3], LateRelease);
    FlattenFour(chunks);
  }
}
