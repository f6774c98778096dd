/** The trigger table the native agent matches MIDI against. */
module TriggerTable {
  datatype TrigType = CC | CC14 | NoteOn | NoteOff | ProgramChange | PitchBend | Aftertouch

  datatype Trigger = Trigger(kind: TrigType, number: int, note: int, channel: int, useValue: int)

  datatype Macro = Macro(triggers: seq<Trigger>, isKnob: int)
}
