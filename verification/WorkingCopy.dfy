/**
 * The editor's working copy: undo history and recovery-journal bookkeeping
 * (packages/frontend-core/src/working-copy.ts).
 */
module WorkingCopy {
  import opened Wrappers

  // ---------- History ----------

  /** Remembered texts, and which of them is shown. */
  datatype History = History(items: seq<string>, index: nat)

  predicate GoodHistory(h: History, limit: nat) {
    1 <= |h.items| <= limit && h.index < |h.items|
  }

  /** An edit forgets what was undone, and the oldest text once the limit is reached. */
  function Edited(h: History, text: string, limit: nat): (r: History)
    requires GoodHistory(h, limit)
    ensures GoodHistory(r, limit)
  {
    var kept := h.items[..h.index + 1] + [text];
    var bounded := if |kept| > limit then kept[1..] else kept;
    History(bounded, |bounded| - 1)
  }

  function AfterEdits(h: History, texts: seq<string>, limit: nat): (r: History)
    requires GoodHistory(h, limit)
    ensures GoodHistory(r, limit)
  {
    if texts == [] then h else Edited(AfterEdits(h, texts[..|texts| - 1], limit), texts[|texts| - 1], limit)
  }

  function Moved(h: History, offset: int): Option<History> {
    if 0 <= h.index + offset < |h.items| then Some(h.(index := h.index + offset)) else None
  }

  function Undone(h: History, times: nat): Option<History> {
    if times == 0 then Some(h)
    else match Undone(h, times - 1)
      case None => None
      case Some(u) => Moved(u, -1)
  }

  function Min(a: nat, b: nat): nat { if a < b then a else b }

  /** One edit, counted back from the new text. */
  lemma EditStep(h: History, text: string, limit: nat, m: nat)
    requires GoodHistory(h, limit)
    ensures var e := Edited(h, text, limit);
            && e.index == Min(h.index + 1, limit - 1)
            && (m <= e.index ==> (m == 0 || m - 1 <= h.index)
                                 && e.items[e.index - m] == if m == 0 then text else h.items[h.index - (m - 1)])
  {
  }

  lemma {:induction false} EditedIndex(h: History, texts: seq<string>, limit: nat)
    requires GoodHistory(h, limit)
    ensures AfterEdits(h, texts, limit).index == Min(h.index + |texts|, if texts == [] then h.index else limit - 1)
  {
    hide Edited;
    if texts != [] {
      var before := texts[..|texts| - 1];
      EditedIndex(h, before, limit);
      EditStep(AfterEdits(h, before, limit), texts[|texts| - 1], limit, 0);
    }
  }

  /** What an edited history holds m entries before the shown one. */
  lemma {:induction false} EditedText(h: History, texts: seq<string>, limit: nat, m: nat)
    requires GoodHistory(h, limit) && m <= AfterEdits(h, texts, limit).index
    ensures m < |texts| || m - |texts| <= h.index
    ensures var e := AfterEdits(h, texts, limit);
            e.items[e.index - m] == if m < |texts| then texts[|texts| - 1 - m] else h.items[h.index - (m - |texts|)]
  {
    hide Edited;
    if texts != [] {
      var before := texts[..|texts| - 1];
      var b := AfterEdits(h, before, limit);
      EditStep(b, texts[|texts| - 1], limit, m);
      if m > 0 { EditedText(h, before, limit, m - 1); }
    }
  }

  lemma {:induction false} UndoneIndex(h: History, times: nat)
    requires h.index < |h.items|
    ensures Undone(h, times).Some? <==> times <= h.index
    ensures times <= h.index ==> Undone(h, times).value == h.(index := h.index - times)
  {
    if times > 0 { UndoneIndex(h, times - 1); }
  }

  /**
   * After n edits, m undos succeed exactly while the history reaches back that far, and then show
   * the text before the last m edits, down to the text from before all of them.
   */
  lemma UndoAfterEdits(h: History, texts: seq<string>, limit: nat, m: nat)
    requires GoodHistory(h, limit) && texts != []
    ensures var u := Undone(AfterEdits(h, texts, limit), m);
            && (u.Some? <==> m <= Min(h.index + |texts|, limit - 1))
            && (u.Some? ==>
                  u.value.index < |u.value.items|
                  && u.value.items[u.value.index]
                     == if m < |texts| then texts[|texts| - 1 - m]
                        else if m - |texts| <= h.index then h.items[h.index - (m - |texts|)] else "")
  {
    hide AfterEdits, Undone;
    EditedIndex(h, texts, limit);
    UndoneIndex(AfterEdits(h, texts, limit), m);
    if m <= AfterEdits(h, texts, limit).index { EditedText(h, texts, limit, m); }
  }

  /** Redo takes back exactly one undo, and undo one redo. */
  lemma RedoUndoes(h: History, offset: int)
    requires h.index < |h.items| && Moved(h, offset).Some?
    ensures Moved(Moved(h, offset).value, -offset) == Some(h)
  {
  }

  // ---------- Journal acknowledgements ----------

  /** The highest accepted revision, and the highest failed one above it, or zero. */
  datatype Journal = Journal(accepted: nat, failed: nat)

  datatype Settlement = Settlement(revision: nat, accepted: bool)

  function Settled(j: Journal, s: Settlement): Journal {
    if s.accepted then
      var accepted := Max(j.accepted, s.revision);
      Journal(accepted, if j.failed <= accepted then 0 else j.failed)
    else if s.revision > j.accepted then Journal(j.accepted, Max(j.failed, s.revision))
    else j
  }

  function Max(a: nat, b: nat): nat { if a < b then b else a }

  function AfterSettlements(ss: seq<Settlement>): Journal {
    if ss == [] then Journal(0, 0) else Settled(AfterSettlements(ss[..|ss| - 1]), ss[|ss| - 1])
  }

  lemma SettledNext(ss: seq<Settlement>, s: Settlement)
    ensures AfterSettlements(ss + [s]) == Settled(AfterSettlements(ss), s)
  {
    assert (ss + [s])[..|ss|] == ss;
  }

  /** The highest revision settled one way, or zero. */
  ghost predicate HighestSettled(ss: seq<Settlement>, accepted: bool, m: nat) {
    && (m == 0 || Settlement(m, accepted) in ss)
    && forall s | s in ss && s.accepted == accepted :: s.revision <= m
  }

  /** In whatever order updates settle, only the highest of each outcome matters. */
  lemma {:induction false} SettlementOrderIsIrrelevant(ss: seq<Settlement>, highestAccepted: nat, highestFailed: nat)
    requires HighestSettled(ss, true, highestAccepted) && HighestSettled(ss, false, highestFailed)
    ensures AfterSettlements(ss)
            == Journal(highestAccepted, if highestFailed > highestAccepted then highestFailed else 0)
  {
    if ss != [] {
      var before := ss[..|ss| - 1];
      var last := ss[|ss| - 1];
      assert ss == before + [last];
      var a := HighestOf(before, true);
      var f := HighestOf(before, false);
      SettlementOrderIsIrrelevant(before, a, f);
      assert highestAccepted == if last.accepted then Max(a, last.revision) else a;
      assert highestFailed == if last.accepted then f else Max(f, last.revision);
    }
  }

  lemma {:induction false} HighestOf(ss: seq<Settlement>, accepted: bool) returns (m: nat)
    ensures HighestSettled(ss, accepted, m)
  {
    if ss == [] {
      m := 0;
    } else {
      var before := ss[..|ss| - 1];
      var last := ss[|ss| - 1];
      assert ss == before + [last];
      m := HighestOf(before, accepted);
      if last.accepted == accepted && last.revision > m {
        assert Settlement(last.revision, accepted) == last;
        m := last.revision;
      }
    }
  }

  // ---------- The working copy ----------

  /** A host's notice names the adoption and the edit revision it was made for. */
  datatype Version = Version(scope: nat, revision: nat)

  /** What only adopting and sealing may change. */
  datatype Standing = Standing(baseline: Option<string>, forceDirty: bool, scope: nat, checkpointFailed: bool, generation: nat)

  class WorkingCopy {
    const historyLimit: nat
    var ready: bool
    var text: string
    var history: seq<string>
    var index: nat
    var baseline: Option<string>
    var forceDirty: bool
    var scope: nat
    var pending: set<nat>
    var revision: nat
    var acceptedRevision: nat
    var failedRevision: nat
    var checkpointFailed: bool
    var generation: nat
    /** The settlements of the present adoption, oldest first. */
    ghost var settlements: seq<Settlement>

    /** The text shown is the history entry at the index; every issued update is pending or settled, once. */
    ghost predicate Valid()
      reads this
    {
      && historyLimit >= 1
      && (ready ==>
            && GoodHistory(Past(), historyLimit) && text == history[index]
            && Journal(acceptedRevision, failedRevision) == AfterSettlements(settlements)
            && (forall r | r in pending :: 1 <= r <= revision)
            && (forall r | 1 <= r <= revision ::
                  r in pending <==> Settlement(r, true) !in settlements && Settlement(r, false) !in settlements)
            && (forall s | s in settlements :: 1 <= s.revision <= revision))
    }

    ghost function Past(): History
      reads this
    {
      History(history, index)
    }

    ghost function Saved(): Standing
      reads this
    {
      Standing(baseline, forceDirty, scope, checkpointFailed, generation)
    }

    constructor (historyLimit: nat)
      requires historyLimit >= 1
      ensures Valid() && !ready && this.historyLimit == historyLimit && generation == 0
    {
      this.historyLimit := historyLimit;
      ready, text, history, index, baseline, forceDirty := false, "", [], 0, None, false;
      scope, pending, revision, acceptedRevision, failedRevision := 0, {}, 0, 0, 0;
      checkpointFailed, generation, settlements := false, 0, [];
    }

    // ---------- What the owner sees ----------

    predicate Dirty()
      reads this
    {
      baseline.None? || forceDirty || text != baseline.value
    }

    predicate CanUndo()
      reads this
    {
      index > 0
    }

    predicate CanRedo()
      reads this
    {
      index + 1 < |history|
    }

    function JournalVersion(): Option<Version>
      reads this
    {
      if ready then Some(Version(scope, revision)) else None
    }

    // ---------- Adoption ----------

    /** A new generation: nothing issued, nothing pending, and later answers to earlier updates are void. */
    method StartJournal(newScope: nat)
      modifies this
      ensures generation == old(generation) + 1 && scope == newScope && revision == 0 && pending == {} && settlements == []
      ensures !checkpointFailed && Journal(acceptedRevision, failedRevision) == AfterSettlements(settlements)
      ensures ready == old(ready) && text == old(text) && Past() == old(Past())
      ensures baseline == old(baseline) && forceDirty == old(forceDirty)
    {
      generation := generation + 1;
      pending, revision, acceptedRevision, failedRevision := {}, 0, 0, 0;
      checkpointFailed, settlements, scope := false, [], newScope;
    }

    /** A new text starts a new history, a new journal and a new generation. */
    method Adopt(newText: string, newBaseline: Option<string>, newScope: nat)
      requires Valid()
      modifies this
      ensures Valid() && ready && text == newText && baseline == newBaseline && !forceDirty
      ensures Past() == History([newText], 0) && pending == {} && settlements == []
      ensures JournalVersion() == Some(Version(newScope, 0)) && generation == old(generation) + 1
      ensures !checkpointFailed
    {
      hide AfterSettlements, Edited;
      StartJournal(newScope);
      ready, text, baseline, forceDirty := true, newText, newBaseline, false;
      history, index := [newText], 0;
    }

    /** Published text replaces the shown entry and is clean; the rest of the history stays. */
    method AdoptPublication(newText: string, newScope: nat)
      requires Valid() && ready
      modifies this
      ensures Valid() && ready && text == newText && !Dirty()
      ensures Past() == old(Past()).(items := old(history)[old(index) := newText])
      ensures pending == {} && settlements == []
      ensures JournalVersion() == Some(Version(newScope, 0)) && generation == old(generation) + 1
      ensures !checkpointFailed
    {
      hide AfterSettlements, Edited;
      StartJournal(newScope);
      text, baseline, forceDirty := newText, Some(newText), false;
      history := history[index := newText];
    }

    /** Only the very revision that was submitted is sealed; later work stays dirty, even if its text is the same. */
    method SealPublication(newText: string, submitted: Option<Version>, newScope: nat)
      requires Valid() && ready
      modifies this
      ensures Valid() && ready
      ensures Dirty() <==> submitted != old(JournalVersion())
      ensures Dirty() ==> Past() == old(Past()) && text == old(text) && baseline == Some(newText) && forceDirty
                          && Saved() == old(Saved()).(baseline := Some(newText), forceDirty := true)
                          && JournalVersion() == old(JournalVersion())
                          && pending == old(pending) && settlements == old(settlements) && generation == old(generation)
      ensures !Dirty() ==> text == newText && Past() == old(Past()).(items := old(history)[old(index) := newText])
                           && pending == {} && settlements == []
                           && Saved() == Standing(Some(newText), false, newScope, false, old(generation) + 1)
    {
      if submitted == Some(Version(scope, revision)) {
        AdoptPublication(newText, newScope);
        return;
      }
      baseline, forceDirty := Some(newText), true;
    }

    method MarkProvisional(newText: Option<string>)
      requires Valid() && ready
      modifies this
      ensures Valid() && ready && Dirty() && baseline == None
      ensures text == (if newText.Some? then newText.value else old(text))
      ensures Past() == old(Past()).(items := old(history)[old(index) := text])
      ensures JournalVersion() == old(JournalVersion()) && pending == old(pending) && settlements == old(settlements)
      ensures Saved() == old(Saved()).(baseline := None)
    {
      baseline := None;
      if newText.Some? {
        text := newText.value;
        history := history[index := newText.value];
      }
      assert history == old(history)[index := text];
    }

    method Reset()
      requires Valid()
      modifies this
      ensures Valid() && !ready && generation == old(generation) + 1
    {
      generation := generation + 1;
      ready := false;
    }

    // ---------- Editing ----------

    method Edit(newText: string)
      requires Valid() && ready
      modifies this
      ensures Valid() && ready && text == newText && Past() == Edited(old(Past()), newText, historyLimit)
      ensures Issued(old(revision), old(pending), old(settlements))
      ensures Saved() == old(Saved())
    {
      text := newText;
      history := history[..index + 1] + [newText];
      if |history| > historyLimit { history := history[1..]; }
      index := |history| - 1;
      UpdateJournal();
    }

    /** The next revision is issued and pending. */
    ghost predicate Issued(before: nat, pendingBefore: set<nat>, settledBefore: seq<Settlement>)
      reads this
    {
      revision == before + 1 && pending == pendingBefore + {revision} && settlements == settledBefore
    }

    method Undo() returns (moved: bool)
      requires Valid() && ready
      modifies this
      ensures Valid() && ready && moved == old(CanUndo())
      ensures moved ==> Some(Past()) == Moved(old(Past()), -1) && Issued(old(revision), old(pending), old(settlements))
      ensures !moved ==> Past() == old(Past()) && revision == old(revision) && pending == old(pending)
                         && settlements == old(settlements)
      ensures Saved() == old(Saved())
    {
      moved := MoveHistory(-1);
    }

    method Redo() returns (moved: bool)
      requires Valid() && ready
      modifies this
      ensures Valid() && ready && moved == old(CanRedo())
      ensures moved ==> Some(Past()) == Moved(old(Past()), 1) && Issued(old(revision), old(pending), old(settlements))
      ensures !moved ==> Past() == old(Past()) && revision == old(revision) && pending == old(pending)
                         && settlements == old(settlements)
      ensures Saved() == old(Saved())
    {
      moved := MoveHistory(1);
    }

    method MoveHistory(offset: int) returns (moved: bool)
      requires Valid() && ready
      modifies this
      ensures Valid() && ready && (moved <==> Moved(old(Past()), offset).Some?)
      ensures moved ==> Some(Past()) == Moved(old(Past()), offset) && Issued(old(revision), old(pending), old(settlements))
      ensures !moved ==> Past() == old(Past()) && revision == old(revision) && pending == old(pending)
                         && settlements == old(settlements)
      ensures Saved() == old(Saved())
    {
      var next := index + offset;
      if next < 0 || next >= |history| { return false; }
      index := next;
      text := history[next];
      UpdateJournal();
      return true;
    }

    /** A new history of the same text; nothing about saving changes. */
    method ClearHistory()
      requires Valid() && ready
      modifies this
      ensures Valid() && ready && Past() == History([old(text)], 0) && text == old(text)
      ensures Dirty() == old(Dirty()) && JournalVersion() == old(JournalVersion()) && pending == old(pending)
      ensures settlements == old(settlements) && Saved() == old(Saved())
    {
      history, index := [text], 0;
    }

    // ---------- The recovery journal ----------

    method UpdateJournal()
      requires Valid() && ready
      modifies `revision, `pending
      ensures Valid() && Issued(old(revision), old(pending), old(settlements))
    {
      revision := revision + 1;
      pending := pending + {revision};
    }

    method EnsureJournalVersion()
      requires Valid() && ready
      modifies this
      ensures Valid() && ready && revision >= 1 && Past() == old(Past()) && text == old(text) && Saved() == old(Saved())
      ensures if old(revision) > 0 then revision == old(revision) && pending == old(pending)
              else Issued(old(revision), old(pending), old(settlements))
      ensures settlements == old(settlements)
    {
      if revision > 0 { return; }
      UpdateJournal();
    }

    /** An acknowledgement of an earlier generation changes nothing; one of this settles its revision. */
    method FinishJournal(issuedIn: nat, settled: nat, accepted: bool)
      requires Valid() && (issuedIn == generation && ready ==> settled in pending)
      modifies this
      ensures Valid() && ready == old(ready) && generation == old(generation) && Past() == old(Past()) && text == old(text)
      ensures JournalVersion() == old(JournalVersion()) && Saved() == old(Saved())
      ensures issuedIn != generation || !ready ==>
                pending == old(pending) && settlements == old(settlements)
                && acceptedRevision == old(acceptedRevision) && failedRevision == old(failedRevision)
      ensures issuedIn == generation && ready ==>
                pending == old(pending) - {settled} && settlements == old(settlements) + [Settlement(settled, accepted)]
    {
      hide AfterSettlements, Edited;
      if issuedIn != generation || !ready { return; }
      SettledNext(settlements, Settlement(settled, accepted));
      pending := pending - {settled};
      if accepted {
        acceptedRevision := if acceptedRevision < settled then settled else acceptedRevision;
        if failedRevision <= acceptedRevision { failedRevision := 0; }
      } else if settled > acceptedRevision {
        failedRevision := if failedRevision < settled then settled else failedRevision;
      }
      settlements := settlements + [Settlement(settled, accepted)];
    }

    /** A warning counts only for the adoption it was issued in. */
    method JournalWarning(failure: bool, warned: Option<nat>)
      requires Valid()
      modifies this`checkpointFailed
      ensures Valid()
      ensures checkpointFailed == (old(checkpointFailed) || (ready && failure && warned == Some(scope)))
    {
      if !failure || !ready || warned != Some(scope) { return; }
      checkpointFailed := true;
    }
  }

  // ---------- Sealing an older revision ----------

  /** What a user and a journal may do between two publications. */
  datatype Command = EditTo(text: string) | UndoOne | RedoOne | Forget | Settle(revision: nat, accepted: bool)

  method Do(k: WorkingCopy, command: Command)
    requires k.Valid() && k.ready
    modifies k
    ensures k.Valid() && k.ready && k.Saved() == old(k.Saved())
  {
    match command
    case EditTo(text) => k.Edit(text);
    case UndoOne => var moved := k.Undo();
    case RedoOne => var moved := k.Redo();
    case Forget => k.ClearHistory();
    case Settle(revision, accepted) =>
      if revision in k.pending { k.FinishJournal(k.generation, revision, accepted); }
  }

  /**
   * Once the publication of an older revision has been sealed, the copy stays dirty through any editing, undoing and
   * redoing, even if that leads back to the very text that was published.
   */
  method SealOlder(k: WorkingCopy, published: string, submitted: Option<Version>, newScope: nat, commands: seq<Command>)
    requires k.Valid() && k.ready && submitted != k.JournalVersion()
    modifies k
    ensures k.Valid() && k.ready && k.Dirty() && k.baseline == Some(published)
    ensures k.generation == old(k.generation) && k.scope == old(k.scope)
  {
    k.SealPublication(published, submitted, newScope);
    var i := 0;
    while i < |commands|
      invariant 0 <= i <= |commands| && k.Valid() && k.ready && k.forceDirty && k.baseline == Some(published)
      invariant k.generation == old(k.generation) && k.scope == old(k.scope)
    {
      Do(k, commands[i]);
      i := i + 1;
    }
  }

  /** And without such a publication, undoing what was edited since the baseline was adopted makes it clean again. */
  method EditAndBack(k: WorkingCopy, text: string)
    requires k.Valid() && k.ready && !k.Dirty() && k.historyLimit >= 2
    modifies k
    ensures k.Valid() && !k.Dirty() && k.text == old(k.text)
    ensures k.revision == old(k.revision) + 2
  {
    k.Edit(text);
    var moved := k.Undo();
  }
}
