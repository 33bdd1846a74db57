/**
 * The file-transfer screen: each selected FileEntry has a status that the
 * cancel button of its row (RunningFileView.onActionViewClicked) and the
 * cancel-all button (BaseFileFragment.cancelAllEntries) move to CANCEL, and
 * updateOnEnd decides what a finished row shows and which completion
 * notification it sends. A `synchronized(entry)` block is one atomic method;
 * a block posted with runOnUiThread is returned as a UiTask and run later as
 * a method of its own.
 */
module FileFragment {
  import opened Wrappers
  import Files

  // ------------------------------------------------------------ statuses

  /** FileStatus. The enum is declared elsewhere; its fifth value, a failed transfer, is Fail here. */
  datatype FileStatus = Wait | Run | Done | Cancel | Fail

  /** Not started or in progress: the statuses a cancel acts on. */
  predicate Pending(s: FileStatus)
  {
    s == Wait || s == Run
  }

  /** The moves a status may make: WAIT to RUN or CANCEL, RUN to DONE, FAIL or CANCEL, or none. */
  predicate Forward(s: FileStatus, t: FileStatus)
  {
    || t == s
    || (s == Wait && (t == Run || t == Cancel))
    || (s == Run && (t == Done || t == Fail || t == Cancel))
  }

  /** What a cancel does to one entry's status inside its critical section. */
  function Cancelled(s: FileStatus): (r: FileStatus)
    ensures Forward(s, r)
    ensures !Pending(r)
    ensures Pending(s) ==> r == Cancel
    ensures !Pending(s) ==> r == s
  {
    if Pending(s) then Cancel else s
  }

  /**
   * The statuses after cancelAllEntries: the list keeps its length and order,
   * every WAIT or RUN entry is CANCEL, every other entry keeps its status.
   */
  function CancelAll(ss: seq<FileStatus>): (r: seq<FileStatus>)
    ensures |r| == |ss|
    ensures forall i :: 0 <= i < |ss| && Pending(ss[i]) ==> r[i] == Cancel
    ensures forall i :: 0 <= i < |ss| && !Pending(ss[i]) ==> r[i] == ss[i]
    ensures forall i :: 0 <= i < |r| ==> !Pending(r[i])
    ensures forall i :: 0 <= i < |r| ==> Forward(ss[i], r[i])
  {
    if ss == [] then []
    else CancelAll(ss[..|ss| - 1]) + [Cancelled(ss[|ss| - 1])]
  }

  /** A row's own cancel before the cancel-all button changes nothing the button would not have done. */
  lemma {:induction false} RowCancelThenCancelAll(ss: seq<FileStatus>, i: nat)
    requires i < |ss|
    ensures CancelAll(ss[i := Cancelled(ss[i])]) == CancelAll(ss)
  {
    var t := ss[i := Cancelled(ss[i])];
    assert forall j :: 0 <= j < |ss| ==> CancelAll(t)[j] == CancelAll(ss)[j];
  }

  /** Cancelling all twice leaves the same statuses as cancelling all once. */
  lemma {:induction false} CancelAllIdempotent(ss: seq<FileStatus>)
    ensures CancelAll(CancelAll(ss)) == CancelAll(ss)
  {
    var once := CancelAll(ss);
    var twice := CancelAll(once);
    assert forall i :: 0 <= i < |once| ==> twice[i] == once[i];
  }

  // ------------------------------------------------------------ the list

  /** The index of the first occurrence of `x`. */
  function IndexOf<T(==)>(s: seq<T>, x: T): (i: nat)
    requires x in s
    ensures i < |s| && s[i] == x
    ensures forall j :: 0 <= j < i ==> s[j] != x
  {
    if s[0] == x then 0 else 1 + IndexOf(s[1..], x)
  }

  /**
   * MutableList.remove(element): the first occurrence of `x` goes, the rest
   * keep their order; a list without `x` is left as it is.
   */
  function RemoveFirst<T(==)>(s: seq<T>, x: T): (r: seq<T>)
    ensures x !in s ==> r == s
    ensures |r| == if x in s then |s| - 1 else |s|
  {
    if s == [] then []
    else if s[0] == x then s[1..]
    else
      assert s == [s[0]] + s[1..];
      [s[0]] + RemoveFirst(s[1..], x)
  }

  /** What remains is the part before the first occurrence followed by the part after it. */
  lemma {:induction false} RemoveFirstAt<T>(s: seq<T>, x: T)
    requires x in s
    ensures RemoveFirst(s, x) == s[..IndexOf(s, x)] + s[IndexOf(s, x) + 1..]
  {
    if s[0] != x {
      var t := s[1..];
      assert s == [s[0]] + t;
      assert x in t;
      RemoveFirstAt(t, x);
      var i := IndexOf(t, x);
      assert IndexOf(s, x) == 1 + i;
      calc {
        RemoveFirst(s, x);
        [s[0]] + RemoveFirst(t, x);
        [s[0]] + (t[..i] + t[i + 1..]);
        { assert s[..1 + i] == [s[0]] + t[..i]; assert s[1 + i + 1..] == t[i + 1..]; }
        s[..1 + i] + s[1 + i + 1..];
      }
    }
  }

  /** Removing takes away exactly one copy of `x` when there is one, and nothing else. */
  lemma {:induction false} RemoveFirstMultiset<T>(s: seq<T>, x: T)
    ensures multiset(RemoveFirst(s, x)) == multiset(s) - multiset{x}
  {
    if s != [] {
      assert s == [s[0]] + s[1..];
      if s[0] != x {
        RemoveFirstMultiset(s[1..], x);
      }
    }
  }

  // ------------------------------------------------------------ pure decisions

  /** THUMBNAIL_SIZE_THRESHOLD: ten mebibytes. */
  const ThumbnailSizeThreshold: int := 10 * 1024 * 1024

  /** A decoded bitmap scaled for the icon; its pixels are not modelled. */
  datatype Thumbnail = Thumbnail(id: nat)

  /**
   * loadThumbnail: no thumbnail for a file over the threshold or without a
   * local URI; otherwise what decoding the file gave (`decoded`, None when it
   * could not be read or decoded).
   */
  function LoadThumbnail(size: int, localUri: Option<string>, decoded: Option<Thumbnail>): (r: Option<Thumbnail>)
    ensures size > ThumbnailSizeThreshold ==> r == None
    ensures localUri.None? ==> r == None
    ensures size <= ThumbnailSizeThreshold && localUri.Some? ==> r == decoded
  {
    if size > ThumbnailSizeThreshold then None
    else if localUri.None? then None
    else decoded
  }

  datatype IntentAction = ActionView | ActionSend

  /** The parts of an Intent that createFileIntent sets. */
  datatype Intent = Intent(action: IntentAction, grantReadUri: bool, data: Option<string>,
                           stream: Option<string>, mimeType: Option<string>)

  /**
   * createFileIntent: nothing without a local URI; to open, a VIEW intent
   * with the URI as its data; to share, a SEND intent with the URI as its
   * stream and the type mimeTypeByPath gives. Both grant read access.
   */
  function CreateFileIntent(localUri: Option<string>, isOpen: bool, mimeTypeByPath: string -> string): (r: Option<Intent>)
    ensures r.None? <==> localUri.None?
    ensures r.Some? ==> r.value.grantReadUri
    ensures r.Some? && isOpen ==>
      r.value.action == ActionView && r.value.data == localUri && r.value.stream == None && r.value.mimeType == None
    ensures r.Some? && !isOpen ==>
      && r.value.action == ActionSend && r.value.data == None && r.value.stream == localUri
      && r.value.mimeType == Some(mimeTypeByPath(localUri.value))
  {
    match localUri
    case None => None
    case Some(uri) =>
      if isOpen then Some(Intent(ActionView, true, Some(uri), None, None))
      else Some(Intent(ActionSend, true, None, Some(uri), Some(mimeTypeByPath(uri))))
  }

  /** The DCResult of a transfer. */
  datatype DCResult = DCResult(success: bool, message: string)

  /** One ProgressNotification.complete call. */
  datatype Notice = Notice(title: string, body: string, icon: Option<Thumbnail>, intent: Option<Intent>)

  function DigitChar(d: nat): char
    requires d < 10
  {
    "0123456789"[d]
  }

  /** Decimal text of a number, as string templates print it. */
  function IntToString(n: int): string
    decreases if n < 0 then 1 - n else n
  {
    if n < 0 then "-" + IntToString(-n)
    else if n < 10 then [DigitChar(n)]
    else IntToString(n / 10) + [DigitChar(n % 10)]
  }

  /** "$currentNum/$waitingCount - ${entry.name}", which every completion notice starts with. */
  function Progress(currentNum: int, waitingCount: int, name: string): string
  {
    IntToString(currentNum) + "/" + IntToString(waitingCount) + " - " + name
  }

  /** The localised strings updateOnEnd chooses among. */
  datatype EndTexts = EndTexts(canceled: string, complete: string, failed: string)

  /**
   * The notice updateOnEnd sends: none unless notifications are on;
   * otherwise the cancelled message for a cancelled entry whatever the
   * result, else the complete message with the open intent, else the failed
   * message with the result's message after the progress.
   */
  function EndNotice(status: FileStatus, res: DCResult, doNotificationStuff: bool, texts: EndTexts,
                     waitingCount: int, currentNum: int, name: string,
                     icon: Option<Thumbnail>, openIntent: Option<Intent>): (r: Option<Notice>)
    ensures r.Some? <==> doNotificationStuff
    ensures r.Some? ==> Files.StartsWith(r.value.body, Progress(currentNum, waitingCount, name))
    ensures r.Some? && status == Cancel ==>
      r.value == Notice(texts.canceled, Progress(currentNum, waitingCount, name), None, None)
    ensures r.Some? && status != Cancel && res.success ==>
      r.value == Notice(texts.complete, Progress(currentNum, waitingCount, name), icon, openIntent)
    ensures r.Some? && status != Cancel && !res.success ==>
      && r.value.title == texts.failed && r.value.icon == icon && r.value.intent == None
      && r.value.body == Progress(currentNum, waitingCount, name) + " : " + res.message
  {
    var progress := Progress(currentNum, waitingCount, name);
    if !doNotificationStuff then None
    else if status == Cancel then Some(Notice(texts.canceled, progress, None, None))
    else if res.success then Some(Notice(texts.complete, progress, icon, openIntent))
    else Some(Notice(texts.failed, progress + " : " + res.message, icon, None))
  }

  /**
   * Only a transfer that succeeded and was not cancelled, of an entry with a
   * local URI, gets a notice one can tap to open the file.
   */
  lemma {:induction false} TapToOpenOnlyOnSuccess(status: FileStatus, res: DCResult, doNotificationStuff: bool, texts: EndTexts,
                               waitingCount: int, currentNum: int, name: string,
                               icon: Option<Thumbnail>, localUri: Option<string>, mimeTypeByPath: string -> string)
    ensures var r := EndNotice(status, res, doNotificationStuff, texts, waitingCount, currentNum, name,
                               icon, CreateFileIntent(localUri, true, mimeTypeByPath));
      (r.Some? && r.value.intent.Some?) <==> doNotificationStuff && status != Cancel && res.success && localUri.Some?
  {
  }

  /** The row's text once the transfer ended: "size unit - message". */
  function EndText(size: int, unitBytesStr: string, res: DCResult): string
  {
    IntToString(size) + " " + unitBytesStr + " - " + res.message
  }

  // ------------------------------------------------------------ objects

  class FileEntry {
    const idStr: string
    const name: string
    const size: int
    const localUri: Option<string>
    var status: FileStatus

    constructor (idStr: string, name: string, size: int, localUri: Option<string>)
      ensures this.idStr == idStr && this.name == name && this.size == size
      ensures this.localUri == localUri && status == Wait
    {
      this.idStr, this.name, this.size, this.localUri := idStr, name, size, localUri;
      status := Wait;
    }
  }

  /** The statuses of a list of entries, in list order. */
  function StatusesOf(es: seq<FileEntry>): (r: seq<FileStatus>)
    reads es
    ensures |r| == |es|
    ensures forall i :: 0 <= i < |es| ==> r[i] == es[i].status
  {
    if es == [] then []
    else StatusesOf(es[..|es| - 1]) + [es[|es| - 1].status]
  }

  /** The notification a row completes when its transfer ends. */
  class ProgressNotification {
    var completed: seq<Notice>

    constructor ()
      ensures completed == []
    {
      completed := [];
    }

    method Complete(n: Notice)
      modifies this
      ensures completed == old(completed) + [n]
    {
      completed := completed + [n];
    }
  }

  /** The image on a row's action button. */
  datatype ActionIcon = CancelIcon | BlockIcon | ShareIcon

  /** A block a row posts with runOnUiThread, to be run later on the UI thread. */
  datatype UiTask = NoTask | HideAndRemove | ShowBlocked

  class BaseFileFragment {
    var selectedEntries: seq<FileEntry>
    var selectedEntriesView: map<string, RunningFileView>
    /** pluginRunning: a transfer run is in progress. */
    var pluginRunning: bool
    /** `activity != null`: runOnUiThread has somewhere to post. */
    var attached: bool

    constructor (attached: bool)
      ensures selectedEntries == [] && selectedEntriesView == map[]
      ensures !pluginRunning && this.attached == attached
    {
      selectedEntries := [];
      selectedEntriesView := map[];
      pluginRunning := false;
      this.attached := attached;
    }

    /**
     * cancelAllEntries: each entry in turn, under its own lock, goes from
     * WAIT or RUN to CANCEL. The list itself is not changed.
     */
    method CancelAllEntries()
      modifies selectedEntries
      ensures StatusesOf(selectedEntries) == CancelAll(old(StatusesOf(selectedEntries)))
    {
      var i := 0;
      while i < |selectedEntries|
        invariant 0 <= i <= |selectedEntries|
        invariant forall e :: e in selectedEntries ==>
          e.status == if e in selectedEntries[..i] then Cancelled(old(e.status)) else old(e.status)
      {
        var e := selectedEntries[i];
        if e.status == Wait || e.status == Run {
          e.status := Cancel;
        }
        assert selectedEntries[..i + 1] == selectedEntries[..i] + [e];
        i := i + 1;
      }
      assert selectedEntries[..i] == selectedEntries;
    }
  }

  /** One row of the selected-files list. */
  class RunningFileView {
    const fragment: BaseFileFragment
    const entry: FileEntry
    const notification: ProgressNotification
    var title: string
    var text: string
    var actionIcon: ActionIcon
    var visible: bool
    /** The thumbnail shown in place of the file-type icon, once there is one. */
    var iconImage: Option<Thumbnail>
    /** After a successful transfer the action button shares the file and the row opens it. */
    var sharesFile: bool

    /** init: the row shows the entry and registers itself under the entry's id. */
    constructor (fragment: BaseFileFragment, entry: FileEntry, notification: ProgressNotification, unitBytesStr: string)
      modifies fragment
      ensures this.fragment == fragment && this.entry == entry && this.notification == notification
      ensures title == entry.name && text == IntToString(entry.size) + " " + unitBytesStr
      ensures actionIcon == CancelIcon && visible && iconImage == None && !sharesFile
      ensures fragment.selectedEntriesView == old(fragment.selectedEntriesView)[entry.idStr := this]
      ensures fragment.selectedEntries == old(fragment.selectedEntries)
      ensures fragment.pluginRunning == old(fragment.pluginRunning) && fragment.attached == old(fragment.attached)
    {
      this.fragment, this.entry, this.notification := fragment, entry, notification;
      title := entry.name;
      text := IntToString(entry.size) + " " + unitBytesStr;
      actionIcon := CancelIcon;
      visible := true;
      iconImage := None;
      sharesFile := false;
      new;
      fragment.selectedEntriesView := fragment.selectedEntriesView[entry.idStr := this];
    }

    /**
     * onActionViewClicked, one critical section on the entry: WAIT and RUN
     * become CANCEL and post their UI update; DONE, CANCEL and FAIL are left
     * alone.
     */
    method OnActionViewClicked() returns (task: UiTask)
      modifies entry
      ensures entry.status == Cancelled(old(entry.status))
      ensures task == (if !fragment.attached then NoTask
                       else if old(entry.status) == Wait then HideAndRemove
                       else if old(entry.status) == Run then ShowBlocked
                       else NoTask)
    {
      task := NoTask;
      match entry.status {
        case Wait =>
          entry.status := Cancel;
          if fragment.attached { task := HideAndRemove; }
        case Run =>
          entry.status := Cancel;
          if fragment.attached { task := ShowBlocked; }
        case Done =>
        case _ =>
      }
    }

    /**
     * The block posted for a cancelled WAIT entry: the row disappears and,
     * unless a run is in progress by then, the entry leaves the list.
     */
    method RunHideAndRemove()
      modifies this, fragment
      ensures !visible
      ensures fragment.pluginRunning ==> fragment.selectedEntries == old(fragment.selectedEntries)
      ensures !fragment.pluginRunning ==> fragment.selectedEntries == RemoveFirst(old(fragment.selectedEntries), entry)
      ensures fragment.pluginRunning == old(fragment.pluginRunning) && fragment.attached == old(fragment.attached)
      ensures fragment.selectedEntriesView == old(fragment.selectedEntriesView)
      ensures title == old(title) && text == old(text) && actionIcon == old(actionIcon)
      ensures iconImage == old(iconImage) && sharesFile == old(sharesFile)
    {
      visible := false;
      if !fragment.pluginRunning {
        fragment.selectedEntries := RemoveFirst(fragment.selectedEntries, entry);
      }
    }

    /** The block posted for a cancelled RUN entry: the action button shows the block icon. */
    method RunShowBlocked()
      modifies this
      ensures actionIcon == BlockIcon
      ensures title == old(title) && text == old(text) && visible == old(visible)
      ensures iconImage == old(iconImage) && sharesFile == old(sharesFile)
    {
      actionIcon := BlockIcon;
    }

    /**
     * updateOnEnd: the row shows "size unit - message"; on success the share
     * icon, the share and open actions and the thumbnail if one loaded, and
     * otherwise the block icon; the notice EndNotice picks, if
     * any, is completed on the row's notification. `decoded` is what reading
     * and decoding the file gave.
     */
    method UpdateOnEnd(res: DCResult, unitBytesStr: string, doNotificationStuff: bool, texts: EndTexts,
                       waitingCount: int, currentNum: int, decoded: Option<Thumbnail>,
                       mimeTypeByPath: string -> string)
      modifies this, notification
      ensures text == EndText(entry.size, unitBytesStr, res)
      ensures actionIcon == if res.success then ShareIcon else BlockIcon
      ensures sharesFile == (res.success || old(sharesFile))
      ensures iconImage == (if res.success && LoadThumbnail(entry.size, entry.localUri, decoded).Some?
                            then LoadThumbnail(entry.size, entry.localUri, decoded) else old(iconImage))
      ensures title == old(title) && visible == old(visible)
      ensures var icon := LoadThumbnail(entry.size, entry.localUri, decoded);
        var notice := EndNotice(entry.status, res, doNotificationStuff, texts, waitingCount, currentNum,
                                entry.name, icon, CreateFileIntent(entry.localUri, true, mimeTypeByPath));
        notification.completed == old(notification.completed) + (if notice.Some? then [notice.value] else [])
    {
      var icon := LoadThumbnail(entry.size, entry.localUri, decoded);
      text := IntToString(entry.size) + " " + unitBytesStr + " - " + res.message;
      if res.success {
        actionIcon := ShareIcon;
        sharesFile := true;
        if icon.Some? {
          iconImage := icon;
        }
      } else {
        actionIcon := BlockIcon;
      }
      if !doNotificationStuff {
        return;
      }
      var progress := Progress(currentNum, waitingCount, entry.name);
      if entry.status == Cancel {
        notification.Complete(Notice(texts.canceled, progress, None, None));
      } else if res.success {
        var intent := CreateFileIntent(entry.localUri, true, mimeTypeByPath);
        notification.Complete(Notice(texts.complete, progress, icon, intent));
      } else {
        notification.Complete(Notice(texts.failed, progress + " : " + res.message, icon, None));
      }
    }
  }
}
