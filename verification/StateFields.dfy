/** What can change each part of the state, and over whole runs why it is what it is (src/container/container_state.cpp). */
module StateFields {
  import opened Wrappers
  import opened ContainerState
  import opened StateRuns
  import opened EffectRuns

  function End(s: State, a: Attempt): State
    requires Apply(s, a).Ok?
  {
    Apply(s, a).value.state
  }

  // ---------- One field at a time ----------

  /** A screen opens by unlocking, and goes dark by locking, closing or a target with another wrapper. */
  lemma ScreenChanges(s: State, a: Attempt)
    requires Consistent(s) && Apply(s, a).Ok?
    ensures s.screen == Locked && End(s, a).screen == Unlocked <==> a.Unlock?
    ensures s.screen == Unlocked && End(s, a).screen == Locked
            <==> s.screen == Unlocked && (a.Lock? || a.Close? || (a.ApplyTarget? && a.wrapperChanged))
    ensures a.Unlock? ==> End(s, a).activeSlot == Some(a.slot)
    ensures !a.Unlock? && End(s, a).screen == Unlocked ==> End(s, a).activeSlot == s.activeSlot
  {
  }

  /** Editing begins under a lease, calm and with the right to edit; it ends when one of them or the screen goes. */
  lemma EditingChanges(s: State, a: Attempt)
    requires Consistent(s) && Apply(s, a).Ok?
    ensures s.edit == ReadOnly && End(s, a).edit == Editing ==>
              s.screen == Unlocked && s.phase == Idle && s.rights.edit && End(s, a).lease == Held
              && ((a.AcquireEdit? && s.attention == Calm && a.lease == Held) || (a.PublishedLease? && a.held))
    ensures s.edit == ReadOnly && ((a.PublishedLease? && a.held && s.screen == Unlocked && s.rights.edit) || a.AcquireEdit?) ==>
              End(s, a).edit == Editing
    ensures s.edit == Editing ==>
              (End(s, a).edit == ReadOnly
               <==> a.Lock? || a.Close? || a.ReleaseEdit? || (a.PublishedLease? && !a.held)
                    || (a.SlotRights? && (!a.rights.edit || !a.mayEdit))
                    || (a.ApplyTarget? && (a.wrapperChanged || !a.rights.edit)))
  {
  }

  /** The lease is what an unlock sees, what is acquired or published, and nobody's after a release or a close. */
  lemma LeaseChanges(s: State, a: Attempt)
    requires Consistent(s) && Apply(s, a).Ok?
    ensures a.Unlock? ==> End(s, a).lease == a.lease
    ensures a.AcquireEdit? || (a.PublishedLease? && a.held) ==> End(s, a).lease == Held
    ensures a.ReleaseEdit? || a.Close? || (a.PublishedLease? && !a.held) ==> End(s, a).lease == NoLease
    ensures !(a.Unlock? || a.AcquireEdit? || a.PublishedLease? || a.ReleaseEdit? || a.Close?) ==> End(s, a).lease == s.lease
  {
  }

  /** An attention is what was raised last; only a target with another wrapper asks for authentication. */
  lemma AttentionChanges(s: State, a: Attempt)
    requires Consistent(s) && Apply(s, a).Ok?
    ensures a.RaiseAttention? ==> End(s, a).attention == a.reason && a.reason !in {Calm, Reauthenticate}
    ensures a.ApplyTarget? && a.wrapperChanged ==> End(s, a).attention == Reauthenticate
    ensures a.ClearAttention? ==> s.attention !in {Calm, Reauthenticate} && End(s, a).attention == Calm
    ensures a.Unlock? ==> End(s, a).attention == if s.attention == Reauthenticate then Calm else s.attention
    ensures a.Close? ==> End(s, a).attention == Calm
    ensures !(a.RaiseAttention? || (a.ApplyTarget? && a.wrapperChanged) || a.ClearAttention? || a.Unlock? || a.Close?) ==>
              End(s, a).attention == s.attention
  {
  }

  /** A target stays until the document is closed or another is observed; with it go the rights it grants the open slot. */
  lemma TargetChanges(s: State, a: Attempt)
    requires Consistent(s) && Apply(s, a).Ok?
    ensures a.ApplyTarget? ==> s.activeSlot.Some?
                               && End(s, a).target == Some(TargetAccess(s.activeSlot.value, a.rights, a.wrapperChanged))
    ensures a.Close? ==> End(s, a).target.None?
    ensures !a.ApplyTarget? && !a.Close? ==> End(s, a).target == s.target
  {
  }

  /** Rights are those of the unlocked slot, or of the target; none on a dark screen. */
  lemma RightsChange(s: State, a: Attempt)
    requires Consistent(s) && Apply(s, a).Ok?
    ensures a.Unlock? ==> End(s, a).rights == if s.target.Some? then s.target.value.rights else a.rights
    ensures a.SlotRights? ==> End(s, a).rights == a.rights
    ensures a.ApplyTarget? && !a.wrapperChanged ==> End(s, a).rights == a.rights
    ensures End(s, a).screen == Locked ==> End(s, a).rights == NO_RIGHTS
    ensures !(a.Unlock? || a.SlotRights? || a.ApplyTarget?) && End(s, a).screen == Unlocked ==> End(s, a).rights == s.rights
  {
  }

  // ---------- Over whole runs ----------

  /** Authentication is asked for only where a target with another wrapper was observed, and the screen is dark. */
  lemma {:induction false} ReauthenticationHasCause(attempts: seq<Attempt>, n: nat)
    requires n <= |attempts|
    ensures After(attempts, n).state.attention == Reauthenticate ==>
              var s := After(attempts, n).state; s.target.Some? && s.target.value.wrapperChanged && s.screen == Locked
  {
    hide Apply, Consistent;
    if n == 0 {
      CalmAtFirst(attempts);
    } else {
      ReauthenticationHasCause(attempts, n - 1);
      var s, a := After(attempts, n - 1).state, attempts[n - 1];
      if Apply(s, a).Ok? {
        AttentionChanges(s, a);
        TargetChanges(s, a);
        ScreenChanges(s, a);
        if a.ApplyTarget? { OneTarget(s, a); }
      }
    }
  }

  lemma CalmAtFirst(attempts: seq<Attempt>)
    ensures After(attempts, 0).state == INITIAL
  {
  }

  /** Targets are observed on an open screen. */
  lemma OneTarget(s: State, a: Attempt)
    requires Consistent(s) && Apply(s, a).Ok? && a.ApplyTarget?
    ensures s.screen == Unlocked && End(s, a).screen == if a.wrapperChanged then Locked else Unlocked
  {
  }

  /** Times the lease came into this session's hand. */
  function Gains(attempts: seq<Attempt>, n: nat): nat
    requires n <= |attempts|
  {
    if n == 0 then 0
    else Gains(attempts, n - 1)
         + One(After(attempts, n - 1).state.lease != Held && After(attempts, n).state.lease == Held)
  }

  /** Times a publication gave it back, or an unlock found it in other hands. */
  function GivenBack(attempts: seq<Attempt>, n: nat): nat
    requires n <= |attempts|
  {
    if n == 0 then 0
    else GivenBack(attempts, n - 1)
         + One(Accepted(attempts, n - 1) && After(attempts, n - 1).state.lease == Held
               && ((attempts[n - 1].PublishedLease? && !attempts[n - 1].held)
                   || (attempts[n - 1].Unlock? && attempts[n - 1].lease != Held)))
  }

  lemma StepHolds(s: State, a: Attempt)
    requires Consistent(s) && Apply(s, a).Ok?
    ensures var t := Apply(s, a).value;
            One(s.lease == Held) + One(s.lease != Held && t.state.lease == Held)
            == One(t.state.lease == Held) + Times(t.effects, Plain(ReleaseLease))
               + One(s.lease == Held && ((a.PublishedLease? && !a.held) || (a.Unlock? && a.lease != Held)))
  {
    hide Times, Consistent, Apply;
    LeaseChanges(s, a);
    StepEmits(s, a, Plain(ReleaseLease));
    EditorHolds(s, a);
  }

  /** Only an editor gives up editing, and it holds the lease. */
  lemma EditorHolds(s: State, a: Attempt)
    requires Consistent(s) && Apply(s, a).Ok?
    ensures a.ReleaseEdit? ==> s.lease == Held
  {
  }

  /** Over every run each time the lease came into hand it was released, published or found away, or it is still held. */
  lemma {:induction false} HoldingsBalance(attempts: seq<Attempt>, n: nat)
    requires n <= |attempts|
    ensures Gains(attempts, n)
            == Times(After(attempts, n).log, Plain(ReleaseLease)) + GivenBack(attempts, n) + One(After(attempts, n).state.lease == Held)
  {
    hide Apply, Times, Consistent;
    if n == 0 {
      CalmAtFirst(attempts);
      TimesShort([], Plain(ReleaseLease));
    } else {
      HoldingsBalance(attempts, n - 1);
      var m, a := After(attempts, n - 1), attempts[n - 1];
      if Apply(m.state, a).Ok? {
        StepHolds(m.state, a);
        TimesConcat(m.log, Apply(m.state, a).value.effects, Plain(ReleaseLease));
      }
    }
  }
}
