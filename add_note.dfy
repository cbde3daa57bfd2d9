/** The journal editor: it adds a note, or edits the note whose id it was
    opened with; saving is an upsert keyed by that id. */
module AddNote {
  import opened Common
  import opened Calendar
  import opened Text
  import opened Records
  import opened Storage

  /** `notes.find(n => n.id === id)`: the first note with the id, if any. */
  function FindNote(notes: seq<Note>, id: Id): (r: Option<Note>)
    ensures r.None? <==> forall i :: 0 <= i < |notes| ==> notes[i].id != id
    ensures r.Some? ==> r.value in notes && r.value.id == id
    ensures r.Some? ==>
      exists i :: 0 <= i < |notes| && notes[i] == r.value && forall j :: 0 <= j < i ==> notes[j].id != id
  {
    if notes == [] then None
    else if notes[0].id == id then Some(notes[0])
    else FindNote(notes[1..], id)
  }

  /** The record `handleSaveNote` builds: the editing id or else a fresh one,
      trimmed heading and body, and the given day or else today. */
  function SavedNote(noteId: Option<Id>, date: Option<Day>, heading: string, body: string,
                     freshId: Id, today: Day): (n: Note)
    ensures n.id == (if noteId.Some? then noteId.value else freshId)
    ensures n.heading == Trim(heading) && n.body == Trim(body)
    ensures n.date == (if date.Some? then date.value else today)
  {
    Note(if noteId.Some? then noteId.value else freshId,
         Trim(heading), Trim(body),
         if date.Some? then date.value else today)
  }

  /** The upsert: with an id, every note carrying it is replaced in place by
      the new note; without one, the new note is appended. */
  function Upsert(notes: seq<Note>, noteId: Option<Id>, note: Note): (r: seq<Note>)
    ensures noteId.None? ==> r == notes + [note]
    ensures noteId.Some? ==> |r| == |notes|
    ensures noteId.Some? ==> forall i :: 0 <= i < |notes| && notes[i].id != noteId.value ==> r[i] == notes[i]
    ensures noteId.Some? ==> forall i :: 0 <= i < |notes| && notes[i].id == noteId.value ==> r[i] == note
  {
    match noteId
    case None => notes + [note]
    case Some(id) =>
      seq(|notes|, i requires 0 <= i < |notes| => if notes[i].id == id then note else notes[i])
  }

  /** `handleSaveNote` on the stored notes: a blank body is refused and the
      notes are kept; otherwise the note is upserted. */
  function SaveNote(notes: seq<Note>, noteId: Option<Id>, date: Option<Day>, heading: string, body: string,
                    freshId: Id, today: Day): (r: (bool, seq<Note>))
    ensures r.0 == !IsBlank(body)
    ensures !r.0 ==> r.1 == notes
    ensures r.0 ==> r.1 == Upsert(notes, noteId, SavedNote(noteId, date, heading, body, freshId, today))
  {
    if IsBlank(body) then (false, notes)
    else (true, Upsert(notes, noteId, SavedNote(noteId, date, heading, body, freshId, today)))
  }

  /** Editing a note that is not in the list leaves the list as it was. */
  lemma UpsertMissingIdIsNoop(notes: seq<Note>, id: Id, note: Note)
    requires forall i :: 0 <= i < |notes| ==> notes[i].id != id
    ensures Upsert(notes, Some(id), note) == notes
  {
  }

  /** After an edit the note is findable under its id, and saving the same
      text again changes nothing. */
  lemma {:induction false} UpsertEditIdempotent(notes: seq<Note>, id: Id, note: Note)
    requires note.id == id
    requires exists i :: 0 <= i < |notes| && notes[i].id == id
    ensures FindNote(Upsert(notes, Some(id), note), id) == Some(note)
    ensures Upsert(Upsert(notes, Some(id), note), Some(id), note) == Upsert(notes, Some(id), note)
  {
    var r := Upsert(notes, Some(id), note);
    FindFirst(r, id, note);
  }

  lemma {:induction false} FindFirst(notes: seq<Note>, id: Id, note: Note)
    requires exists i :: 0 <= i < |notes| && notes[i].id == id
    requires forall i :: 0 <= i < |notes| && notes[i].id == id ==> notes[i] == note
    ensures FindNote(notes, id) == Some(note)
  {
    if notes[0].id != id {
      FindFirst(notes[1..], id, note);
    }
  }

  /** Saving again a note that was just saved and fetched back for editing,
      on the same day, leaves the notes as they are: the stored heading and
      body are already trimmed, and trimming them again changes nothing. */
  lemma ResaveFetchedIsNoop(notes: seq<Note>, id: Id, date: Option<Day>, heading: string, body: string,
                            freshId: Id, today: Day)
    requires !IsBlank(body)
    requires exists i :: 0 <= i < |notes| && notes[i].id == id
    ensures var saved := SaveNote(notes, Some(id), date, heading, body, freshId, today).1;
      FindNote(saved, id).Some?
      && var fetched := FindNote(saved, id).value;
      SaveNote(saved, Some(id), date, fetched.heading, fetched.body, freshId, today) == (true, saved)
  {
    var n := SavedNote(Some(id), date, heading, body, freshId, today);
    UpsertEditIdempotent(notes, id, n);
    TrimIdempotent(heading);
    TrimIdempotent(body);
    assert SavedNote(Some(id), date, n.heading, n.body, freshId, today) == n;
  }

  /** The editor's state: the id and day it was opened with, and the text. */
  class NoteEditor {
    const noteId: Option<Id>
    const date: Option<Day>
    var heading: string
    var body: string

    constructor (noteId: Option<Id>, date: Option<Day>)
      ensures this.noteId == noteId && this.date == date && heading == "" && body == ""
    {
      this.noteId := noteId;
      this.date := date;
      heading, body := "", "";
    }

    /** `fetchNote`: when editing, the text of the stored note with the id. */
    method FetchNote(store: Store)
      modifies this`heading, this`body
      ensures noteId.Some? && FindNote(store.notes, noteId.value).Some? ==>
        heading == FindNote(store.notes, noteId.value).value.heading
        && body == FindNote(store.notes, noteId.value).value.body
      ensures noteId.None? || FindNote(store.notes, noteId.value).None? ==>
        heading == old(heading) && body == old(body)
    {
      if noteId.Some? {
        var found := FindNote(store.notes, noteId.value);
        if found.Some? {
          heading, body := found.value.heading, found.value.body;
        }
      }
    }

    /** `handleSaveNote`: the stored notes become what `SaveNote` says. */
    method HandleSaveNote(store: Store, freshId: Id, today: Day) returns (saved: bool)
      modifies store`notes
      ensures (saved, store.notes) == SaveNote(old(store.notes), noteId, date, heading, body, freshId, today)
    {
      var r := SaveNote(store.notes, noteId, date, heading, body, freshId, today);
      saved := r.0;
      store.notes := r.1;
    }
  }
}
