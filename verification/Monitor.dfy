/**
 The monitor as the program writes it: one object, its methods changing the remote side and the
 store call by call. Each method ends where the step machine of `Reconciler` ends from the same state
 with the same answers to its calls, so what holds of all runs holds of it.
 */
module MonitorJob {
  import opened Common
  import opened Reconciler
  import opened MonitorPass
  import Subscriptions

  // times in microseconds
  const ONE_MINUTE := 60_000_000

  class Monitor {
    const settings: Settings
    const startupTime: int
    var remote: map<string, Remote>
    var rows: set<Subscriptions.Row>
    var clock: int
    ghost var looked: int

    constructor (settings: Settings, remote: map<string, Remote>, rows: set<Subscriptions.Row>, clock: int)
      ensures this.settings == settings && this.startupTime == clock
      ensures this.remote == remote && this.rows == rows && this.clock == clock
    {
      this.settings, this.startupTime := settings, clock;
      this.remote, this.rows, this.clock := remote, rows, clock;
      this.looked := clock;
    }

    /** The state of the step machine when a pass stands at `pc`. */
    ghost function Snapshot(pc: Pc): State
      reads this
    {
      State(settings, remote, rows, clock, pc, looked, map[])
    }

    // ----- calls to Microsoft Graph -----

    method DeleteRemote(id: string, answers: bool) returns (ok: bool)
      modifies this`remote
      ensures ok == (answers && id in old(remote))
      ensures remote == if ok then old(remote) - {id} else old(remote)
    {
      ok := answers && id in remote;
      if ok { remote := remote - {id}; }
    }

    method RefreshSubscription(id: string, answers: bool) returns (expiresOn: Option<int>)
      modifies this`remote
      ensures expiresOn == if answers && id in old(remote) then Some(clock + TWO_HOURS) else None
      ensures remote == if expiresOn.Some? then old(remote)[id := old(remote)[id].(expiresOn := clock + TWO_HOURS)]
                        else old(remote)
    {
      if !answers || id !in remote { return None; }
      remote := remote[id := remote[id].(expiresOn := clock + TWO_HOURS)];
      return Some(clock + TWO_HOURS);
    }

    method SubscribeToChats(newId: string, answers: bool) returns (created: Option<Seen>)
      modifies this`remote
      ensures created == if answers && newId !in old(remote) then Some(Seen(newId, clock + TWO_HOURS)) else None
      ensures remote == if created.Some? then old(remote)[newId := NewChatsSubscription(settings, clock)]
                        else old(remote)
      ensures created.Some? ==>
                && remote[newId].resource == "chats/getAllMessages" + (if settings.pay then "?model=B" else "")
                && remote[newId].notificationURL == settings.baseURL + "changes"
                && remote[newId].expiresOn == clock + TWO_HOURS
                && IsChats(settings.baseURL, remote[newId])
    {
      CreatedIsRecognised(settings, clock);
      if !answers || newId in remote { return None; }
      remote := remote[newId := NewChatsSubscription(settings, clock)];
      return Some(Seen(newId, clock + TWO_HOURS));
    }

    /** All subscriptions of this server by id, and the all chats one: the last that matches. */
    method GetMSTeamsSubscriptionsMap(order: seq<string>)
      returns (found: map<string, Remote>, allChats: Option<Seen>)
      requires Lists(order, remote)
      ensures found == map id | id in remote && settings.baseURL <= remote[id].notificationURL :: remote[id]
      ensures allChats == FindChats(remote, settings.baseURL, order)
      ensures allChats.Some? ==>
                exists i :: 0 <= i < |order| && order[i] == allChats.value.id
                            && IsChats(settings.baseURL, remote[order[i]])
                            && forall j :: i < j < |order| ==> !IsChats(settings.baseURL, remote[order[j]])
    {
      found, allChats := map[], None;
      for i := 0 to |order|
        invariant found == map id | id in remote && id in order[..i]
                                    && settings.baseURL <= remote[id].notificationURL :: remote[id]
        invariant allChats == FindChats(remote, settings.baseURL, order[..i])
      {
        var id := order[i];
        assert order[..i + 1] == order[..i] + [id];
        assert order[..i + 1][..i] == order[..i];
        if settings.baseURL <= remote[id].notificationURL {
          found := found[id := remote[id]];
          if Text.Contains(remote[id].resource, "chats/getAllMessages") {
            allChats := Some(Seen(id, remote[id].expiresOn));
          }
        }
      }
      assert order[..|order|] == order;
      LastMatchWins(remote, settings.baseURL, order);
    }

    // ----- the pass -----

    /** Refreshes a subscription that is due, or drops it; `keep` says that it is still there, `stuck`
        that it could be neither refreshed nor dropped. */
    method RefreshOrDrop(id: string, a: Answers) returns (keep: bool, stuck: bool)
      modifies this`remote, this`rows
      ensures PassEnd(old(Snapshot(Refresh(id))), a)
              == PassEnd(Snapshot(if keep || stuck then Idle else DropLocal(id)), a)
      ensures var refreshed := a.refresh && id in old(remote);
              var extended := if refreshed then old(remote)[id := old(remote)[id].(expiresOn := clock + TWO_HOURS)]
                              else old(remote);
              && (keep <==> refreshed && a.recordRefresh)
              && (stuck <==> !keep && !(a.dropRemote && id in old(remote)))
              && remote == (if keep || stuck then extended else old(remote) - {id})
              && if keep then Subscriptions.OnlyExpiryChanges(old(rows), rows, id, clock + TWO_HOURS)
                 else rows == old(rows)
    {
      hide PassEnd, Stage, Subscriptions.Commit, Subscriptions.OnlyExpiryChanges;
      ghost var refreshing := Snapshot(Refresh(id));
      PassGoesOn(refreshing, a);
      var expiresOn := RefreshSubscription(id, a.refresh);
      if expiresOn.Some? {
        ghost var recording := Snapshot(RecordRefresh(id, expiresOn.value));
        assert PassEnd(refreshing, a) == PassEnd(recording, a);
        PassGoesOn(recording, a);
        if a.recordRefresh {
          Subscriptions.UpdateTouchesOneRow(rows, id, expiresOn.value);
          rows := Subscriptions.Commit(rows, Subscriptions.UpdateExpiresOn(id, expiresOn.value), NoFault);
          return true, false;
        }
      }
      ghost var dropping := Snapshot(DropUnrefreshed(id));
      assert PassEnd(refreshing, a) == PassEnd(dropping, a);
      PassGoesOn(dropping, a);
      var dropped := DeleteRemote(id, a.dropRemote);
      return false, !dropped;
    }

    method RefreshIfDue(seen: Seen, a: Answers) returns (keep: bool, stuck: bool)
      modifies this
      ensures clock == old(clock)
      ensures PassEnd(old(Snapshot(Compare(Some(seen.id), Some(seen)))), a)
              == PassEnd(Snapshot(if keep || stuck then Idle else DropLocal(seen.id)), a)
      ensures !(keep && stuck)
      ensures seen.expiresOn - clock >= FIVE_MINUTES ==> keep && remote == old(remote) && rows == old(rows)
    {
      hide PassEnd;
      ghost var comparing := Snapshot(Compare(Some(seen.id), Some(seen)));
      PassGoesOn(comparing, a);
      ghost var before := looked;
      looked := clock;
      if !ShouldRefresh(seen.expiresOn, clock) { return true, false; }
      ghost var noting := Snapshot(NoteExpiry(seen.id, seen.expiresOn, before));
      assert PassEnd(comparing, a) == PassEnd(noting, a);
      PassGoesOn(noting, a);
      keep, stuck := RefreshOrDrop(seen.id, a);
    }

    /** Drops what is left on the local side and starts from scratch. */
    method Recreate(local: Option<string>, a: Answers)
      modifies this
      ensures clock == old(clock)
      ensures PassEnd(old(Snapshot(AfterDrop(local))), a) == Snapshot(Idle)
    {
      ghost var start := Snapshot(AfterDrop(local));
      PassGoesOn(start, a);
      if local.Some? {
        if !a.dropLocal { return; }
        rows := Subscriptions.Commit(rows, Subscriptions.DeleteById(local.value), NoFault);
      }
      CreateAndRecord(a);
    }

    method CreateAndRecord(a: Answers)
      modifies this
      ensures clock == old(clock)
      ensures PassEnd(old(Snapshot(Create)), a) == Snapshot(Idle)
    {
      hide Subscriptions.Commit, Stage;
      ghost var creating := Snapshot(Create);
      PassGoesOn(creating, a);
      var created := SubscribeToChats(a.newId, a.create);
      if created.None? { return; }
      looked := clock;
      ghost var recording := Snapshot(Record(created.value.id, created.value.expiresOn));
      PassGoesOn(recording, a);
      rows := Subscriptions.Commit(rows, NewRow(settings, created.value.id, created.value.expiresOn),
                                   if a.record then NoFault else InsertFails);
    }

    /** Both sides are compared; whatever does not fit is dropped, and then created anew. */
    method CheckGlobalChatsSubscription(remoteSubscription: Option<Seen>, a: Answers)
      requires Subscriptions.Wellformed(rows)
      modifies this
      ensures clock == old(clock)
      ensures PassEnd(old(Snapshot(ListLocal(remoteSubscription))), a) == Snapshot(Idle)
    {
      PassGoesOn(Snapshot(ListLocal(remoteSubscription)), a);
      if !a.listLocal { return; }
      var local := None;
      if row :| row in rows && row.kind == Subscriptions.TYPE_ALL_CHATS { local := Some(row.id); }
      assert local == LocalId(rows);
      CompareSides(local, remoteSubscription, a);
    }

    method CompareSides(local: Option<string>, seen: Option<Seen>, a: Answers)
      modifies this
      ensures clock == old(clock)
      ensures PassEnd(old(Snapshot(Compare(local, seen))), a) == Snapshot(Idle)
    {
      ghost var comparing := Snapshot(Compare(local, seen));
      PassGoesOn(comparing, a);
      if seen.Some? && local != Some(seen.value.id) {
        // the remote subscription has no local counterpart
        PassGoesOn(Snapshot(DropMismatch(local, seen.value.id)), a);
        var dropped := DeleteRemote(seen.value.id, a.dropRemote);
        if !dropped { return; }
      } else if seen.Some? {
        var keep, stuck := RefreshIfDue(seen.value, a);
        if keep || stuck { return; }
      }
      Recreate(local, a);
    }

    /** Each side holds one at most, and the id that a new subscription would get is new to both. */
    ghost predicate ReadyFor(a: Answers)
      reads this
    {
      AtMostOneEach(Snapshot(Idle)) && a.newId !in remote && Fresh(rows, a.newId)
    }

    /** The job: nothing in the first minute; then list the remote side, and check. */
    method RunMonitoringSystemJob(a: Answers)
      requires Subscriptions.Wellformed(rows) && Lists(a.listing, remote)
      modifies this
      ensures clock == old(clock)
      ensures if clock - startupTime < ONE_MINUTE then Snapshot(Idle) == old(Snapshot(Idle))
              else Snapshot(Idle) == PassEnd(Apply(old(Snapshot(Idle)), Begin), a)
      ensures clock - startupTime >= ONE_MINUTE && old(AtMostOneEach(Snapshot(Idle))) ==>
                Outcome(old(Snapshot(Idle)), a, Snapshot(Idle))
      ensures clock - startupTime >= ONE_MINUTE && RestSucceeds(a) && old(ReadyFor(a)) ==> Agree(Snapshot(Idle))
    {
      if clock - startupTime < ONE_MINUTE { return; }
      ghost var before := Snapshot(Idle);
      if RestSucceeds(a) && ReadyFor(a) { RepairingPassAgrees(before, a); }
      if AtMostOneEach(before) { PassComesTo(before, a); }
      PassGoesOn(Snapshot(ListRemote), a);
      if !a.listRemote { return; }
      var found, allChats := GetMSTeamsSubscriptionsMap(a.listing);
      hide Agree, RestSucceeds, ReadyFor, Outcome, AtMostOneEach;
      CheckGlobalChatsSubscription(allChats, a);
    }

    /** The refresh that a notification asks for, and its record. */
    method RefreshNotified(id: string, refresh: bool, update: bool, ghost pc: Pc, ghost start: State,
        ghost trace: seq<Event>)
      returns (ghost longer: seq<Event>)
      requires Subscriptions.Wellformed(rows)
      requires Lifecycles(trace)
      requires Run(start, trace) == Snapshot(pc).(lifecycles := map[0 := Reconciler.RefreshRemote(id)])
      modifies this`remote, this`rows
      ensures Lifecycles(longer) && Run(start, longer) == Snapshot(pc)
      ensures var refreshed := refresh && id in old(remote);
              && remote == (if refreshed then Extended(old(remote), id, clock + TWO_HOURS) else old(remote))
              && rows == (if refreshed && update
                          then Redated(old(rows), id, clock + TWO_HOURS) else old(rows))
    {
      hide Run, Subscriptions.Wellformed;
      longer := Log(trace, start, LifecycleStep(0, refresh));
      var expiresOn := RefreshSubscription(id, refresh);
      if expiresOn.None? { return; }
      assert Run(start, longer) == Snapshot(pc).(lifecycles := map[0 := UpdateRow(id, expiresOn.value)]);
      longer := Log(longer, start, LifecycleStep(0, update));
      if update {
        rows := Subscriptions.Commit(rows, Subscriptions.UpdateExpiresOn(id, expiresOn.value), NoFault);
      }
    }

    /** A notification refreshes a subscription that is tracked here, or that cannot be looked up. */
    method HandleLifecycleEvent(lifecycleEvent: string, id: string, lookup: bool, refresh: bool, update: bool,
        ghost pc: Pc)
      returns (ghost trace: seq<Event>)
      requires Subscriptions.Wellformed(rows)
      modifies this`remote, this`rows
      ensures Snapshot(pc) == Run(old(Snapshot(pc)), trace) && Lifecycles(trace)
      ensures var refreshed := lifecycleEvent == "reauthorizationRequired" && refresh && id in old(remote)
                               && (lookup ==> Tracked(old(rows), id));
              && remote == (if refreshed then Extended(old(remote), id, clock + TWO_HOURS) else old(remote))
              && rows == (if refreshed && update
                          then Redated(old(rows), id, clock + TWO_HOURS) else old(rows))
    {
      ghost var start := Snapshot(pc);
      trace := [];
      assert Run(start, []) == start;
      hide Run, Subscriptions.Wellformed;
      if lifecycleEvent != "reauthorizationRequired" { return; }
      trace := Log(trace, start, Notify(0, id));
      assert Run(start, trace) == start.(lifecycles := map[0 := LookUp(id)]);
      trace := Log(trace, start, LifecycleStep(0, lookup));
      if lookup && !Tracked(rows, id) {
        assert map[0 := LookUp(id)] - {0} == map[];
        return;
      }
      assert Run(start, trace) == start.(lifecycles := map[0 := Reconciler.RefreshRemote(id)]);
      trace := RefreshNotified(id, refresh, update, pc, start, trace);
    }
  }

  predicate Tracked(rows: set<Subscriptions.Row>, id: string) {
    exists r :: r in rows && r.id == id && r.kind == Subscriptions.TYPE_ALL_CHATS
  }

  /** The rows after the new expiry time of one is recorded. */
  function Redated(rows: set<Subscriptions.Row>, id: string, expiresOn: int): set<Subscriptions.Row> {
    Subscriptions.Commit(rows, Subscriptions.UpdateExpiresOn(id, expiresOn), NoFault)
  }

  ghost predicate Lifecycles(trace: seq<Event>) {
    forall i :: 0 <= i < |trace| ==> trace[i].Notify? || trace[i].LifecycleStep?
  }

  ghost method Log(trace: seq<Event>, start: State, e: Event) returns (longer: seq<Event>)
    requires Lifecycles(trace) && (e.Notify? || e.LifecycleStep?)
    ensures Lifecycles(longer)
    ensures Run(start, longer) == Apply(Run(start, trace), e)
  {
    longer := trace + [e];
    RunSnoc(start, trace, e);
  }
}
