/**
 * The mood tracker: a form (mood, intensity 1-5, optional note) whose saved
 * entries are prepended to a history, of which the five newest are shown.
 */
module Mood {
  import opened Wrappers

  /** A mood button: its name and the colour class of its icon. */
  datatype MoodOption = MoodOption(name: string, color: string)

  const Options: seq<MoodOption> := [
    MoodOption("Joyful", "text-yellow-500"),
    MoodOption("Content", "text-green-500"),
    MoodOption("Neutral", "text-gray-500"),
    MoodOption("Anxious", "text-blue-500"),
    MoodOption("Sad", "text-blue-600"),
    MoodOption("Frustrated", "text-orange-500"),
    MoodOption("Overwhelmed", "text-red-500")
  ]

  /** A saved entry; the id, timestamp and icon component are not modelled. */
  datatype Entry = Entry(mood: string, intensity: int, note: string, color: string)

  /** The form fields and the saved history, newest first; "" is no mood selected. */
  datatype Tracker = Tracker(selected: string, intensity: int, note: string, history: seq<Entry>)

  const Init: Tracker := Tracker("", 3, "", [])

  /** The largest number of history entries displayed. */
  const Shown: nat := 5

  /** `moodOptions.find(m => m.name === name)`; `FindIsFirst` shows it is the first option with that name. */
  function FindOption(name: string): (o: Option<MoodOption>)
    ensures o.Some? ==> o.value in Options && o.value.name == name
    ensures o.None? ==> forall m :: m in Options ==> m.name != name
  {
    Find(Options, name)
  }

  /** No option before position `i` is called `name`. */
  ghost predicate NoneNamedBefore(ms: seq<MoodOption>, i: nat, name: string)
    requires i <= |ms|
  {
    forall j :: 0 <= j < i ==> ms[j].name != name
  }

  function Find(ms: seq<MoodOption>, name: string): (o: Option<MoodOption>)
    ensures o.Some? ==> o.value in ms && o.value.name == name
    ensures o.None? ==> forall m :: m in ms ==> m.name != name
  {
    if |ms| == 0 then None
    else if ms[0].name == name then Some(ms[0])
    else Find(ms[1..], name)
  }

  /** `find` returns the first option with the name: every option before it has another name. */
  lemma {:induction false} FindIsFirst(ms: seq<MoodOption>, name: string)
    ensures Find(ms, name).Some? ==>
      exists i :: 0 <= i < |ms| && ms[i] == Find(ms, name).value && NoneNamedBefore(ms, i, name)
  {
    if |ms| > 0 {
      if ms[0].name == name {
        assert NoneNamedBefore(ms, 0, name);
      } else if Find(ms, name).Some? {
        FindIsFirst(ms[1..], name);
        var i :| 0 <= i < |ms[1..]| && ms[1..][i] == Find(ms, name).value && NoneNamedBefore(ms[1..], i, name);
        assert ms[i + 1] == Find(ms, name).value && NoneNamedBefore(ms, i + 1, name);
      }
    }
  }

  // ---------------------------------------------------------------------------
  // Events

  /** A mood button: it selects its option's name. */
  function SelectMood(s: Tracker, k: nat): (s': Tracker)
    requires k < |Options|
    ensures s'.selected == Options[k].name
    ensures s' == s.(selected := s'.selected)
  {
    s.(selected := Options[k].name)
  }

  /** One of the five intensity buttons. */
  function SetIntensity(s: Tracker, level: int): (s': Tracker)
    requires 1 <= level <= 5
    ensures s'.intensity == level
    ensures s' == s.(intensity := level)
  {
    s.(intensity := level)
  }

  /** Typing in the note field. */
  function SetNote(s: Tracker, text: string): (s': Tracker)
    ensures s'.note == text && s' == s.(note := text)
  {
    s.(note := text)
  }

  /**
   * `handleSaveMood`. With no mood selected nothing happens. Otherwise the
   * option is looked up with a non-null assertion: were it missing, reading
   * its icon would throw and abort the handler, leaving the state as it was.
   * On success the entry goes on the front of the history and the form is
   * reset to no mood, intensity 3 and an empty note.
   */
  function Save(s: Tracker): (s': Tracker)
    ensures s.selected == "" ==> s' == s
    ensures s.selected != "" && FindOption(s.selected).Some? ==>
      && |s'.history| == |s.history| + 1
      && s'.history[0] == Entry(s.selected, s.intensity, s.note, FindOption(s.selected).value.color)
      && s'.history[1..] == s.history
      && s'.selected == "" && s'.intensity == 3 && s'.note == ""
    ensures FindOption(s.selected).None? ==> s' == s
  {
    if s.selected == "" then s
    else match FindOption(s.selected)
      case None => s
      case Some(o) =>
        Tracker("", 3, "", [Entry(s.selected, s.intensity, s.note, o.color)] + s.history)
  }

  /** `moodHistory.slice(0, 5)`: the newest entries, at most five. */
  function Recent(h: seq<Entry>): (r: seq<Entry>)
    ensures |r| == if |h| < Shown then |h| else Shown
    ensures forall i :: 0 <= i < |r| ==> r[i] == h[i]
  {
    if |h| < Shown then h else h[..Shown]
  }

  // ---------------------------------------------------------------------------
  // Properties

  /** The option names are distinct, so the lookup by name is unambiguous. */
  lemma OptionNamesDistinct()
    ensures forall i, j :: 0 <= i < j < |Options| ==> Options[i].name != Options[j].name
    ensures forall m :: m in Options ==> m.name != ""
  {
  }

  /** Looking up a button's name finds that very button. */
  lemma FindSelected(k: nat)
    requires k < |Options|
    ensures FindOption(Options[k].name) == Some(Options[k])
  {
    OptionNamesDistinct();
    var o := FindOption(Options[k].name);
    var j :| 0 <= j < |Options| && Options[j] == o.value;
    assert j == k;
  }

  /** A well-formed entry: an option's name, its colour, an intensity in 1..5. */
  ghost predicate EntryOk(e: Entry) {
    && 1 <= e.intensity <= 5
    && exists k :: 0 <= k < |Options| && Options[k] == MoodOption(e.mood, e.color)
  }

  /**
   * The states the events reach: the intensity is one of the five levels, the
   * selection is empty or an option's name, and every saved entry is well formed.
   */
  ghost predicate Valid(s: Tracker) {
    && 1 <= s.intensity <= 5
    && (s.selected == "" || exists k :: 0 <= k < |Options| && Options[k].name == s.selected)
    && forall i :: 0 <= i < |s.history| ==> EntryOk(s.history[i])
  }

  lemma InitValid()
    ensures Valid(Init) && Recent(Init.history) == []
  {
  }

  /** In a valid state the lookup cannot fail, so saving never throws. */
  lemma SaveNeverThrows(s: Tracker)
    requires Valid(s) && s.selected != ""
    ensures FindOption(s.selected).Some?
    ensures Save(s).history[0].mood == s.selected
  {
    var k :| 0 <= k < |Options| && Options[k].name == s.selected;
    FindSelected(k);
  }

  lemma EventsPreserveValid(s: Tracker, k: nat, level: int, text: string)
    requires Valid(s)
    requires k < |Options| && 1 <= level <= 5
    ensures Valid(SelectMood(s, k)) && Valid(SetIntensity(s, level)) && Valid(SetNote(s, text))
    ensures Valid(Save(s))
  {
    SavePreservesValid(s);
  }

  lemma SavePreservesValid(s: Tracker)
    requires Valid(s)
    ensures Valid(Save(s))
  {
    if s.selected != "" {
      var j :| 0 <= j < |Options| && Options[j].name == s.selected;
      FindSelected(j);
      var e := Entry(s.selected, s.intensity, s.note, Options[j].color);
      assert Save(s) == Tracker("", 3, "", [e] + s.history);
      assert EntryOk(e) by {
        assert Options[j] == MoodOption(e.mood, e.color);
      }
      ConsEntriesOk(e, s.history);
    }
  }

  /** Putting a well-formed entry in front of well-formed entries keeps them well formed. */
  lemma ConsEntriesOk(e: Entry, h: seq<Entry>)
    requires EntryOk(e) && forall i :: 0 <= i < |h| ==> EntryOk(h[i])
    ensures forall i :: 0 <= i < |[e] + h| ==> EntryOk(([e] + h)[i])
  {
    forall i | 0 <= i < |[e] + h|
      ensures EntryOk(([e] + h)[i])
    {
      if i > 0 {
        assert ([e] + h)[i] == h[i - 1];
      }
    }
  }

  /** Saving again does nothing: the form was cleared by the first save. */
  lemma SaveTwiceSavesOnce(s: Tracker)
    ensures Save(Save(s)) == Save(s)
  {
  }

  /** A filled-in form: the mood, intensity and note entered before pressing save. */
  datatype Form = Form(mood: string, intensity: int, note: string)

  function Fill(s: Tracker, f: Form): Tracker {
    s.(selected := f.mood, intensity := f.intensity, note := f.note)
  }

  /** Saves in a row, each after filling in the form. */
  function SaveAll(s: Tracker, forms: seq<Form>): Tracker
    decreases |forms|
  {
    if |forms| == 0 then s else SaveAll(Save(Fill(s, forms[0])), forms[1..])
  }

  /** `name` is the name of one of the mood buttons. */
  predicate Listed(name: string) {
    FindOption(name).Some?
  }

  /** One filled-in save puts exactly one entry in front of the history. */
  lemma SaveStep(s: Tracker, f: Form)
    requires Listed(f.mood)
    ensures Save(Fill(s, f)).history == [Entry(f.mood, f.intensity, f.note, FindOption(f.mood).value.color)] + s.history
  {
    OptionNamesDistinct();
  }

  /** The entry a save of the filled-in form `f` records, when its mood is listed. */
  function EntryOf(f: Form): Entry {
    Entry(f.mood, f.intensity, f.note, if Listed(f.mood) then FindOption(f.mood).value.color else "")
  }

  /** The entries a run of saves records, in save order. */
  function Entries(forms: seq<Form>): (es: seq<Entry>)
    ensures |es| == |forms| && forall i :: 0 <= i < |forms| ==> es[i] == EntryOf(forms[i])
  {
    seq(|forms|, i requires 0 <= i < |forms| => EntryOf(forms[i]))
  }

  /** `h` lists the entries `es` newest first, followed by `older`. */
  ghost predicate NewestFirst(h: seq<Entry>, older: seq<Entry>, es: seq<Entry>) {
    && |h| == |older| + |es|
    && h[|es|..] == older
    && forall i :: 0 <= i < |es| ==> h[i] == es[|es| - 1 - i]
  }

  /**
   * The history lists saved entries newest first: after saving a run of filled
   * forms, their entries (mood, intensity, note and colour) are at the front,
   * newest first, and the previous history follows untouched.
   */
  lemma {:induction false} HistoryNewestFirst(s: Tracker, forms: seq<Form>)
    requires forall i :: 0 <= i < |forms| ==> Listed(forms[i].mood)
    ensures NewestFirst(SaveAll(s, forms).history, s.history, Entries(forms))
    decreases |forms|
  {
    if |forms| > 0 {
      var s1 := Save(Fill(s, forms[0]));
      SaveRecords(s, forms[0]);
      HistoryNewestFirst(s1, forms[1..]);
      SaveAllStep(s, forms);
      EntriesTail(forms);
      ReversedEntries(SaveAll(s1, forms[1..]).history, s.history, Entries(forms));
    }
  }

  /** The entries of a run are the first form's entry followed by those of the rest. */
  lemma EntriesTail(forms: seq<Form>)
    requires |forms| > 0
    ensures Entries(forms) == [EntryOf(forms[0])] + Entries(forms[1..])
  {
    assert Entries(forms)[1..] == Entries(forms[1..]);
  }

  /** A filled-in save records exactly `EntryOf` the form in front of the history. */
  lemma SaveRecords(s: Tracker, f: Form)
    requires Listed(f.mood)
    ensures Save(Fill(s, f)).history == [EntryOf(f)] + s.history
  {
    SaveStep(s, f);
  }

  lemma SaveAllStep(s: Tracker, forms: seq<Form>)
    requires |forms| > 0
    ensures SaveAll(s, forms) == SaveAll(Save(Fill(s, forms[0])), forms[1..])
  {
  }

  /**
   * Index arithmetic for `HistoryNewestFirst`: `h` lists the later entries
   * newest first on top of `es[0]`, which is on top of `older`.
   */
  lemma ReversedEntries(h: seq<Entry>, older: seq<Entry>, es: seq<Entry>)
    requires 0 < |es|
    requires NewestFirst(h, [es[0]] + older, es[1..])
    ensures NewestFirst(h, older, es)
  {
    assert h[|es|..] == h[|es| - 1..][1..];
    forall i | 0 <= i < |es|
      ensures h[i] == es[|es| - 1 - i]
    {
      if i < |es| - 1 {
        assert es[1..][|es| - 2 - i] == es[|es| - 1 - i];
      }
    }
  }

  /** The history view: the newest entry is first and at most five are shown. */
  lemma RecentAfterSave(s: Tracker)
    requires s.selected != "" && FindOption(s.selected).Some?
    ensures var r := Recent(Save(s).history);
      && 1 <= |r| <= Shown
      && r[0].mood == s.selected && r[0].intensity == s.intensity && r[0].note == s.note
      && r[1..] == Recent(s.history)[..|r| - 1]
  {
    var h := Save(s).history;
    assert h == [h[0]] + s.history;
    RecentCons(h[0], s.history);
  }

  /** The view of a history with one more entry in front: that entry, then the old view cut to fit. */
  lemma RecentCons(e: Entry, h: seq<Entry>)
    ensures var r := Recent([e] + h);
      && 1 <= |r| <= Shown && r[0] == e
      && r[1..] == Recent(h)[..|r| - 1]
  {
    var r := Recent([e] + h);
    assert r[1..] == ([e] + h)[1..|r|];
  }
}
