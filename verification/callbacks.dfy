/** Callback data carried by the bot's inline buttons, and the per-user college
    selection a "ROOM=" button records. */
module Callbacks {
  import opened Strings

  const RoomPrefix: string := "ROOM="
  const WasherPrefix: string := "WASHER="

  /** The data of the button offering a college (line 182). */
  function RoomButton(college: string): string
  {
    RoomPrefix + college
  }

  /** The data of the button offering a washer, as line 258 writes it:
      `'WASHER='.format(item)` has no placeholder, so the washer is dropped. */
  function WasherButtonAsWritten(washer: string): string
  {
    WasherPrefix
  }

  /** The data of the button offering a washer, with the washer filled in. */
  function WasherButton(washer: string): string
  {
    WasherPrefix + washer
  }

  /** What the handler makes of the data of a button it recognised by its
      prefix: `data.replace(prefix, '')` (lines 211 and 269). */
  function Payload(data: string, prefix: string): string
    requires prefix != []
  {
    RemoveAll(data, prefix)
  }

  /** A college button is recognised as such and gives back its college, for
      every college name that does not itself contain "ROOM=". */
  lemma RoomRoundTrip(college: string)
    requires !Contains(college, RoomPrefix)
    ensures StartsWith(RoomButton(college), RoomPrefix)
    ensures Payload(RoomButton(college), RoomPrefix) == college
  {
    assert RoomButton(college)[..|RoomPrefix|] == RoomPrefix;
    PrefixRemoved(RoomPrefix, college);
  }

  /** As written, every washer button yields the empty washer name, whatever
      washer it was shown for. */
  lemma WasherButtonAsWrittenLosesWasher(washer: string)
    ensures Payload(WasherButtonAsWritten(washer), WasherPrefix) == ""
    ensures washer != "" ==> Payload(WasherButtonAsWritten(washer), WasherPrefix) != washer
  {
  }

  /** With the washer filled in, a washer button is recognised and gives back
      its washer, for every washer name that does not contain "WASHER=". */
  lemma WasherRoundTrip(washer: string)
    requires !Contains(washer, WasherPrefix)
    ensures StartsWith(WasherButton(washer), WasherPrefix)
    ensures Payload(WasherButton(washer), WasherPrefix) == washer
  {
    assert WasherButton(washer)[..|WasherPrefix|] == WasherPrefix;
    PrefixRemoved(WasherPrefix, washer);
  }

  /** The selection update as line 214 writes it: `users = {id: data}`
      replaces the whole table. */
  function SelectAsWritten(users: map<string, string>, id: string, college: string): map<string, string>
  {
    map[id := college]
  }

  /** As written, selecting a college forgets every other user's selection. */
  lemma SelectAsWrittenForgets(users: map<string, string>, id: string, college: string, other: string)
    requires other in users && other != id
    ensures other !in SelectAsWritten(users, id, college)
  {
  }
}
