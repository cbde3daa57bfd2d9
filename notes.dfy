/** The journal screen: the password gate in front of the notes, the 30-day
    strip, the notes of the selected day, and note deletion. */
module Notes {
  import opened Common
  import opened Calendar
  import opened Text
  import opened Records
  import opened Storage

  /** The password gate's flags: `isSettingNewPassword`, `notesPassword`,
      `isPasswordModalVisible` and the text typed into `passwordInput`. */
  datatype Gate = Gate(settingNew: bool, password: Option<string>, modalVisible: bool, input: string)

  datatype SubmitOutcome = BlankRejected | PasswordSet | Unlocked | WrongPassword

  /** A stored password is truthy: present and not the empty string. */
  predicate Truthy(password: Option<string>)
  {
    password.Some? && password.value != ""
  }

  /** `checkPassword`: without a stored password the gate asks for a new one,
      with one it asks for that one; either way the modal is shown. */
  function CheckPassword(g: Gate, stored: Option<string>): (r: Gate)
    ensures r.modalVisible && r.input == g.input
    ensures !Truthy(stored) ==> r.settingNew && r.password == g.password
    ensures Truthy(stored) ==> r.settingNew == g.settingNew && r.password == stored
  {
    if !Truthy(stored) then g.(settingNew := true, modalVisible := true)
    else g.(password := stored, modalVisible := true)
  }

  /** `handlePasswordSubmit` on the gate. A blank input (after trimming) is
      refused and nothing changes, the input included. Otherwise, in set-new
      mode the untrimmed input becomes the password and the modal closes; in
      verify mode the modal closes exactly when the untrimmed input equals the
      password. Every non-blank submit clears the input. */
  function Submit(g: Gate): (r: (Gate, SubmitOutcome))
    ensures r.1 == BlankRejected <==> IsBlank(g.input)
    ensures r.1 == BlankRejected ==> r.0 == g
    ensures r.1 != BlankRejected ==> r.0.input == ""
    ensures r.1 == PasswordSet <==> !IsBlank(g.input) && g.settingNew
    ensures r.1 == PasswordSet ==> r.0 == Gate(false, Some(g.input), false, "")
    ensures r.1 == Unlocked <==> !IsBlank(g.input) && !g.settingNew && g.password == Some(g.input)
    ensures r.1 == Unlocked ==> r.0 == g.(modalVisible := false, input := "")
    ensures r.1 == WrongPassword ==> r.0 == g.(input := "")
  {
    if IsBlank(g.input) then (g, BlankRejected)
    else if g.settingNew then (Gate(false, Some(g.input), false, ""), PasswordSet)
    else if g.password == Some(g.input) then (g.(modalVisible := false, input := ""), Unlocked)
    else (g.(input := ""), WrongPassword)
  }

  /** A password set through the gate opens it: once the new password is
      stored and checked again, typing the same text unlocks the notes, and
      any other text does not. */
  lemma SetThenVerify(g: Gate, typed: string)
    requires g.settingNew && !IsBlank(g.input)
    ensures var chosen := Submit(g).0;
      var asking := CheckPassword(chosen, Some(g.input));
      !asking.settingNew && asking.modalVisible
      && (Submit(asking.(input := typed)).1 == Unlocked <==> !IsBlank(typed) && typed == g.input)
  {
    assert g.input != [];
  }

  /** Verification compares the untrimmed text: surrounding spaces make a
      correct password fail. */
  lemma VerifyIsExact()
    ensures Submit(Gate(false, Some("pw"), true, " pw")).1 == WrongPassword
  {
    assert !IsBlank(" pw") by {
      assert !IsWhitespace(" pw"[1]);
    }
  }

  /** `notesForSelectedDate`: the notes dated on the selected day. */
  function NotesOn(notes: seq<Note>, day: Day): (r: seq<Note>)
    ensures forall n :: n in r <==> n in notes && n.date == day
  {
    Filter(notes, (n: Note) => n.date == day)
  }

  /** `deleteNote`'s filter: drops every note with the id. */
  function WithoutNote(notes: seq<Note>, noteId: Id): (r: seq<Note>)
    ensures forall n :: n in r <==> n in notes && n.id != noteId
  {
    Filter(notes, (n: Note) => n.id != noteId)
  }

  /** `renderDateScroll`'s list: days are put in front one by one, from today
      back, so the list runs oldest first; reversing it in place makes it run
      from today back, the same window as the habits screen's. */
  method RenderDateScroll(today: Day) returns (dates: seq<Day>)
    ensures dates == WindowDates(today, StripDays)
  {
    var built: seq<Day> := [];
    var i := 0;
    while i < StripDays
      invariant 0 <= i <= StripDays
      invariant |built| == i
      invariant forall k :: 0 <= k < i ==> built[k] == today - (i - 1 - k)
    {
      built := [today - i] + built;
      i := i + 1;
    }
    var a := new Day[StripDays](k requires 0 <= k < StripDays => built[k]);
    var lo, hi := 0, StripDays - 1;
    while lo < hi
      invariant 0 <= lo && hi == StripDays - 1 - lo && lo <= StripDays / 2
      invariant forall k :: 0 <= k < lo ==> a[k] == built[StripDays - 1 - k]
      invariant forall k :: hi < k < StripDays ==> a[k] == built[StripDays - 1 - k]
      invariant forall k :: lo <= k <= hi ==> a[k] == built[k]
    {
      a[lo], a[hi] := a[hi], a[lo];
      lo, hi := lo + 1, hi - 1;
    }
    dates := a[..];
    assert forall k :: 0 <= k < StripDays ==> dates[k] == today - k;
  }

  /** The journal screen's state. */
  class NotesScreen {
    var notes: seq<Note>
    var selectedDate: Day
    var isPasswordModalVisible: bool
    var passwordInput: string
    var notesPassword: Option<string>
    var isSettingNewPassword: bool

    /** The gate as one value. */
    function GateState(): Gate
      reads this
    {
      Gate(isSettingNewPassword, notesPassword, isPasswordModalVisible, passwordInput)
    }

    /** The screen opens on today, locked out of nothing yet and with no notes. */
    constructor (today: Day)
      ensures notes == [] && selectedDate == today
      ensures GateState() == Gate(false, None, false, "")
    {
      notes := [];
      selectedDate := today;
      isPasswordModalVisible, passwordInput := false, "";
      notesPassword, isSettingNewPassword := None, false;
    }

    /** The effect run on opening and whenever `notesPassword` changes: the
        notes are loaded if the modal is closed and a password is known, then
        the stored password is checked. */
    method PasswordEffect(store: Store)
      modifies this`notes, this`isSettingNewPassword, this`notesPassword, this`isPasswordModalVisible
      ensures GateState() == CheckPassword(old(GateState()), store.notesPassword)
      ensures !old(isPasswordModalVisible) && Truthy(old(notesPassword)) ==> notes == store.notes
      ensures !(!old(isPasswordModalVisible) && Truthy(old(notesPassword))) ==> notes == old(notes)
    {
      if !isPasswordModalVisible && Truthy(notesPassword) {
        notes := store.notes;
      }
      var g := CheckPassword(GateState(), store.notesPassword);
      isSettingNewPassword, notesPassword, isPasswordModalVisible := g.settingNew, g.password, g.modalVisible;
    }

    /** Typing into the password field. */
    method TypePassword(text: string)
      modifies this`passwordInput
      ensures passwordInput == text
    {
      passwordInput := text;
    }

    /** The modal's `onRequestClose` (the Android back button): the gate
        closes with no password checked. The notes are not loaded; the screen
        keeps whatever it held, and the password state and the typed text are
        untouched. */
    method DismissPasswordModal()
      modifies this`isPasswordModalVisible
      ensures GateState() == old(GateState()).(modalVisible := false)
      ensures notes == old(notes)
    {
      isPasswordModalVisible := false;
    }

    /** `handlePasswordSubmit`: the gate moves as `Submit` says; a new
        password is also written to the store, and unlocking loads the notes. */
    method HandlePasswordSubmit(store: Store) returns (outcome: SubmitOutcome)
      modifies this`notes, this`isSettingNewPassword, this`notesPassword,
        this`isPasswordModalVisible, this`passwordInput, store`notesPassword
      ensures (GateState(), outcome) == Submit(old(GateState()))
      ensures outcome == PasswordSet ==> store.notesPassword == Some(old(passwordInput))
      ensures outcome != PasswordSet ==> store.notesPassword == old(store.notesPassword)
      ensures outcome == Unlocked ==> notes == store.notes
      ensures outcome != Unlocked ==> notes == old(notes)
    {
      var r := Submit(GateState());
      outcome := r.1;
      if outcome == PasswordSet {
        store.notesPassword := Some(passwordInput);
      } else if outcome == Unlocked {
        notes := store.notes;
      }
      isSettingNewPassword, notesPassword := r.0.settingNew, r.0.password;
      isPasswordModalVisible, passwordInput := r.0.modalVisible, r.0.input;
    }

    /** Tapping a day in the strip. */
    method SelectDate(day: Day)
      modifies this`selectedDate
      ensures selectedDate == day
    {
      selectedDate := day;
    }

    /** `deleteNote`, once confirmed: every note with the id is dropped and
        the list written. */
    method DeleteNote(store: Store, noteId: Id)
      modifies this`notes, store`notes
      ensures notes == WithoutNote(old(notes), noteId) && store.notes == notes
    {
      notes := WithoutNote(notes, noteId);
      store.notes := notes;
    }
  }
}
