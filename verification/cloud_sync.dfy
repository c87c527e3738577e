/** The cloud sync flags of the view model: `isSyncing`, `lastSyncTime` and the snackbar
    message. A sync starts with the guard (return when a sync is already running, otherwise
    raise the flag) and, after the network call has suspended and resumed, finishes by
    reporting its outcome and lowering the flag. What the network and the import did is an
    input. */
module CloudSync {
  import opened Wrappers

  datatype SyncState = SyncState(isSyncing: bool, lastSyncTime: Option<int>, snackbarMessage: Option<string>)

  /** What the upload came back with. `message` is the exception's message, possibly null. */
  datatype UploadOutcome =
    | Uploaded
    | UploadFailed(error: Option<string>)
    | UploadThrew(message: Option<string>)

  /** What the download came back with: an error, no backup, data that imported or did not,
      or an exception. */
  datatype DownloadOutcome =
    | DownloadFailed(error: string)
    | NoBackup
    | Downloaded(imported: bool)
    | DownloadThrew(message: Option<string>)

  /** A nullable string in a string template. */
  function Shown(s: Option<string>): string {
    if s.Some? then s.value else "null"
  }

  /** The guard at the head of both syncs: whether the call goes on, and the state after it. */
  function Begin(s: SyncState): (r: (bool, SyncState))
    ensures r.0 <==> !s.isSyncing
    ensures r.1.isSyncing
    ensures r.1.lastSyncTime == s.lastSyncTime && r.1.snackbarMessage == s.snackbarMessage
  {
    if s.isSyncing then (false, s) else (true, s.(isSyncing := true))
  }

  function UploadMessage(o: UploadOutcome): string {
    match o
    case Uploaded => "Data synced to cloud successfully!"
    case UploadFailed(error) => "Sync failed: " + (if error.Some? then error.value else "Unknown error")
    case UploadThrew(message) => "Sync error: " + Shown(message)
  }

  function DownloadMessage(o: DownloadOutcome): string {
    match o
    case DownloadFailed(error) => "Sync failed: " + error
    case NoBackup => "No backup found in cloud"
    case Downloaded(imported) =>
      if imported then "Data synced from cloud successfully!" else "Failed to import cloud data"
    case DownloadThrew(message) => "Sync error: " + Shown(message)
  }

  /** The end of syncToCloud: the time is recorded only for a successful upload, a message is
      always shown, and the `finally` block lowers the flag. */
  function FinishUpload(s: SyncState, o: UploadOutcome, now: int): (r: SyncState)
    ensures !r.isSyncing
    ensures r.lastSyncTime == (if o.Uploaded? then Some(now) else s.lastSyncTime)
    ensures r.snackbarMessage == Some(UploadMessage(o))
  {
    SyncState(false, if o.Uploaded? then Some(now) else s.lastSyncTime, Some(UploadMessage(o)))
  }

  /** The end of syncFromCloud: the time is recorded only for data that imported. */
  function FinishDownload(s: SyncState, o: DownloadOutcome, now: int): (r: SyncState)
    ensures !r.isSyncing
    ensures r.lastSyncTime == (if o == Downloaded(true) then Some(now) else s.lastSyncTime)
    ensures r.snackbarMessage == Some(DownloadMessage(o))
  {
    SyncState(false, if o == Downloaded(true) then Some(now) else s.lastSyncTime, Some(DownloadMessage(o)))
  }

  /** A whole syncToCloud call. */
  function SyncToCloud(s: SyncState, o: UploadOutcome, now: int): SyncState {
    var (started, s1) := Begin(s);
    if started then FinishUpload(s1, o, now) else s
  }

  /** A whole syncFromCloud call. */
  function SyncFromCloud(s: SyncState, o: DownloadOutcome, now: int): SyncState {
    var (started, s1) := Begin(s);
    if started then FinishDownload(s1, o, now) else s
  }

  /** While a sync is running, either sync returns at once and changes nothing. */
  lemma BusyGuard(s: SyncState, up: UploadOutcome, down: DownloadOutcome, now: int)
    requires s.isSyncing
    ensures SyncToCloud(s, up, now) == s && SyncFromCloud(s, down, now) == s
  {
  }

  /** A sync that starts always ends with the flag down, and sets the time exactly when the
      upload succeeded or the downloaded data imported. */
  lemma SyncEnds(s: SyncState, up: UploadOutcome, down: DownloadOutcome, now: int)
    requires !s.isSyncing
    ensures var r := SyncToCloud(s, up, now);
      !r.isSyncing && (r.lastSyncTime != s.lastSyncTime ==> up.Uploaded?) && (up.Uploaded? ==> r.lastSyncTime == Some(now))
    ensures var r := SyncFromCloud(s, down, now);
      !r.isSyncing && (r.lastSyncTime != s.lastSyncTime ==> down == Downloaded(true))
      && (down == Downloaded(true) ==> r.lastSyncTime == Some(now))
  {
  }

  /** At most one sync runs at a time: once one has started, a second one (push or pull)
      is turned away until the first finishes, after which a new one can start. */
  lemma OneSyncAtATime(s: SyncState, up: UploadOutcome, now: int)
    requires Begin(s).0
    ensures !Begin(Begin(s).1).0 && Begin(Begin(s).1).1 == Begin(s).1
    ensures Begin(FinishUpload(Begin(s).1, up, now)).0
  {
  }

  /** A failed or rejected sync never claims success in the snackbar. */
  lemma FailureMessages(up: UploadOutcome, down: DownloadOutcome)
    ensures !up.Uploaded? ==> UploadMessage(up) != "Data synced to cloud successfully!"
    ensures down != Downloaded(true) ==> DownloadMessage(down) != "Data synced from cloud successfully!"
  {
    if !up.Uploaded? {
      assert UploadMessage(up)[0] == 'S';
      assert "Data synced to cloud successfully!"[0] == 'D';
    }
    if down != Downloaded(true) {
      assert DownloadMessage(down)[0] != 'D';
      assert "Data synced from cloud successfully!"[0] == 'D';
    }
  }
}
