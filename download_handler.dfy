/**
  The download pipeline of DownloadHandler.kt: the duplicate-report filter
  `DownloadsTracker`, the state handler that persists every download state,
  raises the install task on success and queues one notification event per
  state, and the projection of a state onto notification content. The
  database tables, the work-state holder, the notification manager and the
  log are traces held in fields; the two consumer coroutines run as
  sequential methods over a FIFO channel.
*/
module DownloadHandler {
  import opened Wrappers
  import opened Text

  // ----- DownloadsTracker -----

  /** `WorkInfo.State` of the work scheduler. */
  datatype WorkState = Enqueued | Running | Succeeded | Failed | Blocked | Cancelled {
    /** `WorkInfo.State.isFinished`. */
    predicate IsFinished() {
      Succeeded? || Failed? || Cancelled?
    }
  }

  /** Drops repeated progress reports: `activeWorks` maps a work id to its last state and progress. */
  class DownloadsTracker<P(==)> {
    var activeWorks: map<string, (WorkState, P)>

    /** No recorded state is finished: a finished report removes its entry again. */
    predicate Valid()
      reads this
    {
      forall id :: id in activeWorks ==> !activeWorks[id].0.IsFinished()
    }

    constructor ()
      ensures activeWorks == map[]
      ensures Valid()
    {
      activeWorks := map[];
    }

    /**
      `trackWork`: a report is new iff it is the first for the id, or its
      state differs from the recorded one, or it is running with a different
      progress. The report is recorded, and the entry is dropped again when
      the state is finished.
    */
    method TrackWork(id: string, state: WorkState, progress: P) returns (isNew: bool)
      modifies this
      ensures isNew <==> || id !in old(activeWorks)
                         || old(activeWorks)[id].0 != state
                         || (state == Running && old(activeWorks)[id].1 != progress)
      ensures activeWorks == if state.IsFinished() then old(activeWorks) - {id}
                             else old(activeWorks)[id := (state, progress)]
      ensures old(Valid()) ==> Valid()
    {
      var previous := if id in activeWorks then Some(activeWorks[id]) else None;
      activeWorks := activeWorks[id := (state, progress)];
      if state.IsFinished() {
        activeWorks := activeWorks - {id};
      }
      isNew := previous.None? || previous.value.0 != state
               || (state == Running && previous.value.1 != progress);
    }
  }

  /** Replaying an identical unfinished report: the second is not new and the table is as after the first. */
  method ReplayReport<P(==)>(tracker: DownloadsTracker<P>, id: string, state: WorkState, progress: P)
    returns (first: bool, second: bool)
    requires !state.IsFinished()
    modifies tracker
    ensures id !in old(tracker.activeWorks) ==> first
    ensures !second
    ensures tracker.activeWorks == old(tracker.activeWorks)[id := (state, progress)]
  {
    first := tracker.TrackWork(id, state, progress);
    second := tracker.TrackWork(id, state, progress);
  }

  /** Replaying a finished report on a tracker that keeps its invariant: both are new, the id has no entry and no other entry changed. */
  method ReplayFinishedReport<P(==)>(tracker: DownloadsTracker<P>, id: string, state: WorkState, progress: P)
    returns (first: bool, second: bool)
    requires state.IsFinished()
    requires tracker.Valid()
    modifies tracker
    ensures first && second
    ensures tracker.Valid()
    ensures id !in tracker.activeWorks
    ensures tracker.activeWorks == old(tracker.activeWorks) - {id}
  {
    first := tracker.TrackWork(id, state, progress);
    second := tracker.TrackWork(id, state, progress);
  }

  /** Enqueued, running at 10, running at 10 again, succeeded: new, new, repeated, new. */
  method TrackerScenario() returns (results: seq<bool>)
    ensures results == [true, true, false, true]
  {
    var tracker := new DownloadsTracker<Option<int>>();
    var r1 := tracker.TrackWork("work", Enqueued, None);
    var r2 := tracker.TrackWork("work", Running, Some(10));
    var r3 := tracker.TrackWork("work", Running, Some(10));
    var r4 := tracker.TrackWork("work", Succeeded, None);
    results := [r1, r2, r3, r4];
  }

  // ----- Download states and the records derived from them -----

  /** The fields every download state carries. */
  datatype DownloadInfo = DownloadInfo(packageName: string, name: string, version: string, repoId: int, cacheFileName: string)

  /** `DownloadState`, one variant per stage of a download. */
  datatype DownloadState =
    | Pending(info: DownloadInfo)
    | Connecting(info: DownloadInfo)
    | Downloading(info: DownloadInfo, read: int, total: Option<int>, progress: int)
    | Success(info: DownloadInfo)
    | Error(info: DownloadInfo, validationError: string, stopReason: int)
    | Cancel(info: DownloadInfo)

  /** A row of the `Downloaded` table. */
  datatype Downloaded = Downloaded(packageName: string, version: string, repositoryId: int, cacheFileName: string, changed: int, state: DownloadState)

  /** A row of the install-task table: the package and the cache file to install. */
  datatype InstallTask = InstallTask(packageName: string, cacheFileName: string)

  datatype UpdateEvent = UpdateEvent(key: string, state: DownloadState)

  datatype LogEntry =
    | DownloadFailed(packageName: string, validationError: string)   // Log.e
    | StoppedBy(stopReason: int, packageName: string)                // Log.i

  /** `WorkInfo.STOP_REASON_NOT_STOPPED`. */
  const StopReasonNotStopped: int := -256

  function DownloadedOf(state: DownloadState, now: int): Downloaded {
    Downloaded(state.info.packageName, state.info.version, state.info.repoId, state.info.cacheFileName, now, state)
  }

  function ToInstallTask(state: DownloadState): InstallTask {
    InstallTask(state.info.packageName, state.info.cacheFileName)
  }

  /** What an `Error` state logs: the failure, and the stop reason when the scheduler stopped the work. */
  function FailureLogs(state: DownloadState): (logs: seq<LogEntry>)
    ensures logs != [] <==> state.Error?
    ensures state.Error? ==> logs[0] == DownloadFailed(state.info.packageName, state.validationError)
    ensures |logs| <= 2
    ensures |logs| == 2 <==> state.Error? && state.stopReason != StopReasonNotStopped
    ensures |logs| == 2 ==> logs[1] == StoppedBy(state.stopReason, state.info.packageName)
  {
    match state
    case Error(info, validationError, stopReason) =>
      [DownloadFailed(info.packageName, validationError)]
        + (if stopReason != StopReasonNotStopped then [StoppedBy(stopReason, info.packageName)] else [])
    case _ => []
  }

  // ----- What one snapshot of states produces -----

  /** The upserts for the snapshot's states, one per state, in order. */
  function UpsertsOf(snapshot: seq<(string, DownloadState)>, clock: seq<int>): seq<Downloaded>
    requires |clock| == |snapshot|
  {
    if snapshot == [] then
      []
    else
      UpsertsOf(snapshot[..|snapshot| - 1], clock[..|clock| - 1])
        + [DownloadedOf(snapshot[|snapshot| - 1].1, clock[|clock| - 1])]
  }

  /** The notification events for the snapshot's states, one per state, in order. */
  function EventsOf(snapshot: seq<(string, DownloadState)>): seq<UpdateEvent> {
    if snapshot == [] then []
    else EventsOf(snapshot[..|snapshot| - 1]) + [UpdateEvent(snapshot[|snapshot| - 1].0, snapshot[|snapshot| - 1].1)]
  }

  /** The install tasks for the snapshot's `Success` states, in order. */
  function TasksOf(snapshot: seq<(string, DownloadState)>): seq<InstallTask> {
    if snapshot == [] then []
    else
      var last := snapshot[|snapshot| - 1].1;
      TasksOf(snapshot[..|snapshot| - 1]) + (if last.Success? then [ToInstallTask(last)] else [])
  }

  /** The keys whose state is `Success`. */
  function SuccessKeys(snapshot: seq<(string, DownloadState)>): set<string> {
    if snapshot == [] then {}
    else
      var last := snapshot[|snapshot| - 1];
      SuccessKeys(snapshot[..|snapshot| - 1]) + (if last.1.Success? then {last.0} else {})
  }

  function LogsOf(snapshot: seq<(string, DownloadState)>): seq<LogEntry> {
    if snapshot == [] then []
    else LogsOf(snapshot[..|snapshot| - 1]) + FailureLogs(snapshot[|snapshot| - 1].1)
  }

  lemma RemoveOneMore<K, V>(m: map<K, V>, removed: set<K>, k: K)
    ensures (m - removed) - {k} == m - (removed + {k})
  {
  }

  lemma AppendAssoc<T>(a: seq<T>, b: seq<T>, c: seq<T>)
    ensures (a + b) + c == a + (b + c)
  {
  }

  /** What one more state of the snapshot adds to each of the derived sequences. */
  lemma SnapshotStep(snapshot: seq<(string, DownloadState)>, clock: seq<int>, i: nat)
    requires |clock| == |snapshot| && i < |snapshot|
    ensures UpsertsOf(snapshot[..i + 1], clock[..i + 1]) == UpsertsOf(snapshot[..i], clock[..i]) + [DownloadedOf(snapshot[i].1, clock[i])]
    ensures EventsOf(snapshot[..i + 1]) == EventsOf(snapshot[..i]) + [UpdateEvent(snapshot[i].0, snapshot[i].1)]
    ensures TasksOf(snapshot[..i + 1]) == TasksOf(snapshot[..i]) + (if snapshot[i].1.Success? then [ToInstallTask(snapshot[i].1)] else [])
    ensures SuccessKeys(snapshot[..i + 1]) == SuccessKeys(snapshot[..i]) + (if snapshot[i].1.Success? then {snapshot[i].0} else {})
    ensures LogsOf(snapshot[..i + 1]) == LogsOf(snapshot[..i]) + FailureLogs(snapshot[i].1)
  {
    assert snapshot[..i + 1][..i] == snapshot[..i];
    assert clock[..i + 1][..i] == clock[..i];
  }

  /** Every state of a snapshot is persisted exactly once, with its own fields and time, in order. */
  lemma {:induction false} OneUpsertPerState(snapshot: seq<(string, DownloadState)>, clock: seq<int>)
    requires |clock| == |snapshot|
    ensures |UpsertsOf(snapshot, clock)| == |snapshot|
    ensures forall i :: 0 <= i < |snapshot| ==> UpsertsOf(snapshot, clock)[i] == DownloadedOf(snapshot[i].1, clock[i])
  {
    if snapshot != [] {
      var n := |snapshot| - 1;
      OneUpsertPerState(snapshot[..n], clock[..n]);
    }
  }

  /** Every state of a snapshot yields exactly one event with its key and state, in order. */
  lemma {:induction false} OneEventPerState(snapshot: seq<(string, DownloadState)>)
    ensures |EventsOf(snapshot)| == |snapshot|
    ensures forall i :: 0 <= i < |snapshot| ==> EventsOf(snapshot)[i] == UpdateEvent(snapshot[i].0, snapshot[i].1)
  {
    if snapshot != [] {
      OneEventPerState(snapshot[..|snapshot| - 1]);
    }
  }

  /** Only `Success` states raise install tasks or clear keys. */
  lemma {:induction false} NoTaskWithoutSuccess(snapshot: seq<(string, DownloadState)>)
    requires forall i :: 0 <= i < |snapshot| ==> !snapshot[i].1.Success?
    ensures TasksOf(snapshot) == [] && SuccessKeys(snapshot) == {}
  {
    if snapshot != [] {
      NoTaskWithoutSuccess(snapshot[..|snapshot| - 1]);
    }
  }

  /** A key is cleared iff one of its states in the snapshot is `Success`. */
  lemma {:induction false} SuccessKeysAreSuccesses(snapshot: seq<(string, DownloadState)>, key: string)
    ensures key in SuccessKeys(snapshot) <==> exists i :: 0 <= i < |snapshot| && snapshot[i].0 == key && snapshot[i].1.Success?
  {
    if snapshot != [] {
      var n := |snapshot| - 1;
      SuccessKeysAreSuccesses(snapshot[..n], key);
      if key in SuccessKeys(snapshot[..n]) {
        var i :| 0 <= i < n && snapshot[..n][i].0 == key && snapshot[..n][i].1.Success?;
        assert snapshot[i] == snapshot[..n][i];
      }
      if exists i :: 0 <= i < |snapshot| && snapshot[i].0 == key && snapshot[i].1.Success? {
        var i :| 0 <= i < |snapshot| && snapshot[i].0 == key && snapshot[i].1.Success?;
        if i < n {
          assert snapshot[..n][i] == snapshot[i];
        }
      }
    }
  }

  // ----- Notification content -----

  /** `setProgress(max, progress, indeterminate)`. */
  datatype ProgressBar = ProgressBar(max: int, progress: int, indeterminate: bool)

  /** The Cancel action: a broadcast bound to the package name, with the name's hash code as request code. */
  datatype CancelAction = CancelAction(packageName: string, requestCode: int)

  datatype Title =
    | DownloadingTitle(caption: string)        // R.string.downloading_FORMAT
    | DownloadedTitle(name: string)          // R.string.downloaded_FORMAT
    | ErrorTitle(validationError: string)    // set by updateWithError

  datatype Body =
    | PendingBody                            // R.string.pending
    | SizeBody(read: int, total: Option<int>)
    | CanceledBody                           // R.string.canceled
    | ErrorBody(validationError: string)     // set by updateWithError

  /**
    The content `createNotificationBuilder` sets; `text`, `progress` and
    `ongoing` are `None` where the base builder's setting is left alone, and
    `timesOut` says whether
    `setTimeoutAfter(INSTALLED_NOTIFICATION_TIMEOUT)` is applied.
  */
  datatype Notification = Notification(
    title: Title, text: Option<Body>, progress: Option<ProgressBar>,
    cancelAction: Option<CancelAction>, ongoing: Option<bool>, timesOut: bool)

  predicate IsTerminal(state: DownloadState) {
    state.Success? || state.Error? || state.Cancel?
  }

  function DownloadingLabel(info: DownloadInfo): string {
    info.name + " (" + info.version + ")"
  }

  /** `createNotificationBuilder`, with the `KeepInstallNotification` preference passed in. */
  function NotificationFor(state: DownloadState, keepInstallNotification: bool): (n: Notification)
    ensures (state.Pending? || state.Connecting?) ==> n.progress == Some(ProgressBar(1, 0, true)) && n.text == Some(PendingBody)
    ensures state.Downloading? ==> n.progress == Some(ProgressBar(100, state.progress, false))
                                   && n.text == Some(SizeBody(state.read, state.total))
    ensures n.cancelAction.Some? <==> !IsTerminal(state)
    ensures n.cancelAction.Some? ==> n.cancelAction.value == CancelAction(state.info.packageName, HashCode(state.info.packageName))
    ensures IsTerminal(state) <==> n.ongoing == Some(false)
    ensures !IsTerminal(state) ==> n.ongoing.None?
    ensures IsTerminal(state) ==> n.progress.None?
    ensures n.text.None? <==> state.Success?
    ensures n.timesOut <==> state.Cancel? || state.Error? || (state.Success? && !keepInstallNotification)
    ensures !state.Success? && !state.Error? ==> n.title == DownloadingTitle(DownloadingLabel(state.info))
    ensures state.Cancel? ==> n.text == Some(CanceledBody)
    ensures state.Success? ==> n.title == DownloadedTitle(state.info.name)
    ensures state.Error? ==> n.title == ErrorTitle(state.validationError) && n.text == Some(ErrorBody(state.validationError))
  {
    var cancel := Some(CancelAction(state.info.packageName, HashCode(state.info.packageName)));
    var downloading := DownloadingTitle(DownloadingLabel(state.info));
    match state
    case Pending(_) => Notification(downloading, Some(PendingBody), Some(ProgressBar(1, 0, true)), cancel, None, false)
    case Connecting(_) => Notification(downloading, Some(PendingBody), Some(ProgressBar(1, 0, true)), cancel, None, false)
    case Downloading(_, read, total, progress) =>
      Notification(downloading, Some(SizeBody(read, total)), Some(ProgressBar(100, progress, false)), cancel, None, false)
    case Cancel(_) => Notification(downloading, Some(CanceledBody), None, None, Some(false), true)
    case Success(info) => Notification(DownloadedTitle(info.name), None, None, None, Some(false), !keepInstallNotification)
    case Error(_, validationError, _) =>
      Notification(ErrorTitle(validationError), Some(ErrorBody(validationError)), None, None, Some(false), true)
  }

  /** What the notification manager is asked to do. */
  datatype NotificationOp =
    | CancelNotification(id: int)
    | Notify(id: int, notification: Notification)

  /**
    `updateNotification`: for `Success` and `Cancel` the notification with
    the key's hash code is cancelled; for every other state it is posted
    under that id when the permission is granted.
  */
  function NotificationOps(event: UpdateEvent, permissionGranted: bool, keepInstallNotification: bool): (ops: seq<NotificationOp>)
    ensures |ops| <= 1
    ensures forall op :: op in ops ==> op.id == HashCode(event.key)
    ensures event.state.Success? || event.state.Cancel? ==> ops == [CancelNotification(HashCode(event.key))]
    ensures (exists op :: op in ops && op.Notify?) <==> !event.state.Success? && !event.state.Cancel? && permissionGranted
    ensures forall op :: op in ops && op.Notify? ==> op.notification == NotificationFor(event.state, keepInstallNotification)
    ensures !event.state.Success? && !event.state.Cancel? && !permissionGranted ==> ops == []
  {
    if event.state.Success? || event.state.Cancel? then [CancelNotification(HashCode(event.key))]
    else if permissionGranted then [Notify(HashCode(event.key), NotificationFor(event.state, keepInstallNotification))]
    else []
  }

  /** The operations for a sequence of events, in order. */
  function NotificationOpsOf(events: seq<UpdateEvent>, permissionGranted: bool, keepInstallNotification: bool): seq<NotificationOp> {
    if events == [] then
      []
    else
      NotificationOps(events[0], permissionGranted, keepInstallNotification)
        + NotificationOpsOf(events[1..], permissionGranted, keepInstallNotification)
  }

  /** Without the notification permission a run of events only ever cancels notifications. */
  lemma {:induction false} NoPostWithoutPermission(events: seq<UpdateEvent>, keepInstallNotification: bool)
    ensures forall op :: op in NotificationOpsOf(events, false, keepInstallNotification) ==> op.CancelNotification?
    ensures |NotificationOpsOf(events, false, keepInstallNotification)| <= |events|
  {
    if events != [] {
      NoPostWithoutPermission(events[1..], keepInstallNotification);
    }
  }

  /** With the permission every event yields exactly one operation, under the hash code of its own key. */
  lemma {:induction false} OneOpPerEventWithPermission(events: seq<UpdateEvent>, keepInstallNotification: bool)
    ensures |NotificationOpsOf(events, true, keepInstallNotification)| == |events|
    ensures forall i :: 0 <= i < |events| ==> NotificationOpsOf(events, true, keepInstallNotification)[i].id == HashCode(events[i].key)
  {
    if events != [] {
      OneOpPerEventWithPermission(events[1..], keepInstallNotification);
      var ops := NotificationOpsOf(events, true, keepInstallNotification);
      assert ops[0] in NotificationOps(events[0], true, keepInstallNotification);
      assert forall i :: 1 <= i < |events| ==> ops[i] == NotificationOpsOf(events[1..], true, keepInstallNotification)[i - 1];
    }
  }

  // ----- DownloadStateHandler -----

  /**
    The handler. `downloaded` and `installTasks` are the upserts and puts
    sent to the two tables, `states` is the work-state holder's content,
    `events` the buffered channel, `logs` the log and `notifications` what
    the notification manager was asked to do.
  */
  class DownloadStateHandler {
    var downloaded: seq<Downloaded>
    var installTasks: seq<InstallTask>
    var states: map<string, DownloadState>
    var events: seq<UpdateEvent>
    var logs: seq<LogEntry>
    var notifications: seq<NotificationOp>

    constructor (states: map<string, DownloadState>)
      ensures this.states == states
      ensures downloaded == [] && installTasks == [] && events == [] && logs == [] && notifications == []
    {
      this.states := states;
      downloaded, installTasks, events, logs, notifications := [], [], [], [], [];
    }

    /** `updateState`: the holder's entry for the key becomes the state. */
    method UpdateState(key: string, state: DownloadState)
      modifies this
      ensures states == old(states)[key := state]
      ensures downloaded == old(downloaded) && installTasks == old(installTasks) && events == old(events)
      ensures logs == old(logs) && notifications == old(notifications)
    {
      states := states[key := state];
    }

    /**
      `handleDownloadState`: one upsert copying the state's fields, the install
      task and the clearing of the key for `Success` only, the failure logs for
      `Error` only, and one event with the same key and state for every variant.
    */
    method HandleDownloadState(key: string, state: DownloadState, now: int)
      modifies this
      ensures downloaded == old(downloaded)
        + [Downloaded(state.info.packageName, state.info.version, state.info.repoId, state.info.cacheFileName, now, state)]
      ensures installTasks == old(installTasks) + (if state.Success? then [ToInstallTask(state)] else [])
      ensures states == if state.Success? then old(states) - {key} else old(states)
      ensures logs == old(logs) + FailureLogs(state)
      ensures events == old(events) + [UpdateEvent(key, state)]
      ensures notifications == old(notifications)
    {
      downloaded := downloaded + [DownloadedOf(state, now)];
      match state {
        case Success(_) =>
          installTasks := installTasks + [ToInstallTask(state)];
          states := states - {key};
        case Error(info, validationError, stopReason) =>
          logs := logs + [DownloadFailed(info.packageName, validationError)];
          if stopReason != StopReasonNotStopped {
            logs := logs + [StoppedBy(stopReason, info.packageName)];
          }
        case _ =>
      }
      events := events + [UpdateEvent(key, state)];
    }

    /** The state-collecting loop, for one snapshot of the holder; `clock` gives each call's time. */
    method CollectStates(snapshot: seq<(string, DownloadState)>, clock: seq<int>)
      requires |clock| == |snapshot|
      modifies this
      ensures downloaded == old(downloaded) + UpsertsOf(snapshot, clock)
      ensures installTasks == old(installTasks) + TasksOf(snapshot)
      ensures states == old(states) - SuccessKeys(snapshot)
      ensures logs == old(logs) + LogsOf(snapshot)
      ensures events == old(events) + EventsOf(snapshot)
      ensures notifications == old(notifications)
    {
      var i := 0;
      while i < |snapshot|
        invariant 0 <= i <= |snapshot|
        invariant downloaded == old(downloaded) + UpsertsOf(snapshot[..i], clock[..i])
        invariant installTasks == old(installTasks) + TasksOf(snapshot[..i])
        invariant states == old(states) - SuccessKeys(snapshot[..i])
        invariant logs == old(logs) + LogsOf(snapshot[..i])
        invariant events == old(events) + EventsOf(snapshot[..i])
        invariant notifications == old(notifications)
      {
        var (key, state) := snapshot[i];
        SnapshotStep(snapshot, clock, i);
        RemoveOneMore(old(states), SuccessKeys(snapshot[..i]), key);
        AppendAssoc(old(downloaded), UpsertsOf(snapshot[..i], clock[..i]), [DownloadedOf(state, clock[i])]);
        AppendAssoc(old(installTasks), TasksOf(snapshot[..i]), if state.Success? then [ToInstallTask(state)] else []);
        AppendAssoc(old(logs), LogsOf(snapshot[..i]), FailureLogs(state));
        AppendAssoc(old(events), EventsOf(snapshot[..i]), [UpdateEvent(key, state)]);
        HandleDownloadState(key, state, clock[i]);
        i := i + 1;
      }
      assert snapshot[..i] == snapshot;
      assert clock[..i] == clock;
    }

    /** `updateNotification`, with the permission check and the preference passed in. */
    method UpdateNotification(event: UpdateEvent, permissionGranted: bool, keepInstallNotification: bool)
      modifies this
      ensures notifications == old(notifications) + NotificationOps(event, permissionGranted, keepInstallNotification)
      ensures downloaded == old(downloaded) && installTasks == old(installTasks) && states == old(states)
      ensures events == old(events) && logs == old(logs)
    {
      var id := HashCode(event.key);
      var content := NotificationFor(event.state, keepInstallNotification);
      if event.state.Success? || event.state.Cancel? {
        notifications := notifications + [CancelNotification(id)];
      } else if permissionGranted {
        notifications := notifications + [Notify(id, content)];
      }
    }

    /** The event-consuming loop: every queued event, in the order it was sent, reaches `updateNotification`. */
    method ConsumeEvents(permissionGranted: bool, keepInstallNotification: bool)
      modifies this
      ensures events == []
      ensures notifications == old(notifications) + NotificationOpsOf(old(events), permissionGranted, keepInstallNotification)
      ensures downloaded == old(downloaded) && installTasks == old(installTasks) && states == old(states)
      ensures logs == old(logs)
    {
      ghost var target := old(notifications) + NotificationOpsOf(old(events), permissionGranted, keepInstallNotification);
      while events != []
        invariant notifications + NotificationOpsOf(events, permissionGranted, keepInstallNotification) == target
        invariant downloaded == old(downloaded) && installTasks == old(installTasks) && states == old(states)
        invariant logs == old(logs)
        decreases |events|
      {
        var event := events[0];
        ghost var before := notifications;
        var rest := events[1..];
        assert NotificationOpsOf(events, permissionGranted, keepInstallNotification)
            == NotificationOps(event, permissionGranted, keepInstallNotification)
               + NotificationOpsOf(rest, permissionGranted, keepInstallNotification);
        AppendAssoc(before, NotificationOps(event, permissionGranted, keepInstallNotification),
                    NotificationOpsOf(rest, permissionGranted, keepInstallNotification));
        events := rest;
        UpdateNotification(event, permissionGranted, keepInstallNotification);
      }
    }
  }
}
