/**
 * The upload dialog's file list: entries are added by a drop, removed one at a
 * time, ramped through a simulated upload and cleared on close. Timers, React's
 * rendering and the browser's object URLs are abstracted away; each state
 * update happens at once, in program order.
 */
module DocumentUpload {
  import opened Wrappers

  /** A browser `File`, reduced to what the dialog looks at. */
  datatype BrowserFile = BrowserFile(name: string, mimeType: string, size: nat)

  /** The object URL created for an image's preview, as an opaque token. */
  datatype Preview = ObjectUrl(file: BrowserFile)

  datatype UploadStatus = Pending | Uploading | Success | Error

  datatype UploadedFile = UploadedFile(
    file: BrowserFile,
    preview: Option<Preview>,
    status: UploadStatus,
    progress: int,
    error: Option<string>)

  predicate IsImage(f: BrowserFile)
  {
    "image/" <= f.mimeType
  }

  /** The entry a drop creates for one accepted file. */
  function NewEntry(f: BrowserFile): UploadedFile
  {
    UploadedFile(f, if IsImage(f) then Some(ObjectUrl(f)) else None, Pending, 0, None)
  }

  /** What every entry satisfies: progress is one of 0, 20, ..., 100, 0 while pending, 100 once done. */
  ghost predicate WellFormed(e: UploadedFile)
  {
    && 0 <= e.progress <= 100
    && e.progress % 20 == 0
    && (e.status == Pending ==> e.progress == 0)
    && (e.status == Success ==> e.progress == 100)
  }

  ghost predicate AllWellFormed(entries: seq<UploadedFile>)
  {
    forall i :: 0 <= i < |entries| ==> WellFormed(entries[i])
  }

  // ---------------------------------------------------------------------------
  // The list transformers each handler applies
  // ---------------------------------------------------------------------------

  /** `acceptedFiles.map(...)` in onDrop: one pending entry at progress 0 per file, in order. */
  function NewEntries(accepted: seq<BrowserFile>): (r: seq<UploadedFile>)
    ensures |r| == |accepted|
    ensures forall i :: 0 <= i < |r| ==>
      r[i].file == accepted[i] && r[i].status == Pending && r[i].progress == 0 && r[i].error.None?
    ensures forall i :: 0 <= i < |r| ==>
      r[i].preview == if IsImage(accepted[i]) then Some(ObjectUrl(accepted[i])) else None
    ensures AllWellFormed(r)
  {
    if |accepted| == 0 then [] else [NewEntry(accepted[0])] + NewEntries(accepted[1..])
  }

  /** `prev.filter((_, i) => i !== index)`, walking the list with the index counting down. */
  function Removed(prev: seq<UploadedFile>, index: int): (r: seq<UploadedFile>)
    ensures |r| == if 0 <= index < |prev| then |prev| - 1 else |prev|
    ensures forall x :: x in r ==> x in prev
  {
    if |prev| == 0 then []
    else (if index == 0 then [] else [prev[0]]) + Removed(prev[1..], index - 1)
  }

  /** Removing an index in range splices that one entry out; the others keep their order. */
  lemma {:induction false} RemovedSplicesOut(prev: seq<UploadedFile>, index: int)
    requires 0 <= index < |prev|
    ensures Removed(prev, index) == prev[..index] + prev[index + 1..]
  {
    if index == 0 {
      RemovedOutOfRange(prev[1..], -1);
      assert Removed(prev, index) == [] + Removed(prev[1..], -1);
      assert prev[..index] + prev[index + 1..] == prev[1..];
    } else {
      RemovedSplicesOut(prev[1..], index - 1);
      assert Removed(prev, index) == [prev[0]] + Removed(prev[1..], index - 1);
      assert prev[..index] == [prev[0]] + prev[1..][..index - 1];
      assert prev[index + 1..] == prev[1..][index..];
    }
  }

  /** An index that names no entry removes nothing. */
  lemma {:induction false} RemovedOutOfRange(prev: seq<UploadedFile>, index: int)
    requires index < 0 || |prev| <= index
    ensures Removed(prev, index) == prev
  {
    if |prev| > 0 {
      RemovedOutOfRange(prev[1..], index - 1);
      assert prev == [prev[0]] + prev[1..];
    }
  }

  /** `prev.map((f, i) => i === k ? { ...f, status, progress } : f)`. */
  function UpdatedAt(prev: seq<UploadedFile>, k: int, status: UploadStatus, progress: int): (r: seq<UploadedFile>)
    ensures r == if 0 <= k < |prev| then prev[k := prev[k].(status := status, progress := progress)] else prev
  {
    seq(|prev|, i requires 0 <= i < |prev| => if i == k then prev[i].(status := status, progress := progress) else prev[i])
  }

  /** A second update at the same index overrides the first. */
  lemma UpdatedAtTwice(prev: seq<UploadedFile>, k: int, s1: UploadStatus, p1: int, s2: UploadStatus, p2: int)
    ensures UpdatedAt(UpdatedAt(prev, k, s1, p1), k, s2, p2) == UpdatedAt(prev, k, s2, p2)
  {
  }

  /** An update that writes a well-formed status and progress keeps every entry well formed. */
  lemma UpdatedAtWellFormed(prev: seq<UploadedFile>, k: int, status: UploadStatus, progress: int)
    requires AllWellFormed(prev)
    requires 0 <= progress <= 100 && progress % 20 == 0
    requires status == Pending ==> progress == 0
    requires status == Success ==> progress == 100
    ensures AllWellFormed(UpdatedAt(prev, k, status, progress))
  {
  }

  /** What handleUpload does to one entry: a pending entry ends uploaded at 100, others are kept. */
  function AfterUpload(e: UploadedFile): UploadedFile
  {
    if e.status == Pending then e.(status := Success, progress := 100) else e
  }

  /** The whole list after handleUpload. */
  function UploadAll(entries: seq<UploadedFile>): (r: seq<UploadedFile>)
    ensures |r| == |entries|
    ensures forall i :: 0 <= i < |r| ==> r[i].file == entries[i].file && r[i].status != Pending
  {
    seq(|entries|, i requires 0 <= i < |entries| => AfterUpload(entries[i]))
  }

  /** `files.map(f => f.file)`: what the completion callback receives. */
  function FilesOf(entries: seq<UploadedFile>): seq<BrowserFile>
  {
    seq(|entries|, i requires 0 <= i < |entries| => entries[i].file)
  }

  /**
   * A drop appends its files, in their order, to what the completion callback
   * will receive, and uploading does not change that argument.
   */
  lemma DroppedFilesInOrder(prev: seq<UploadedFile>, accepted: seq<BrowserFile>)
    ensures FilesOf(prev + NewEntries(accepted)) == FilesOf(prev) + accepted
    ensures FilesOf(UploadAll(prev + NewEntries(accepted))) == FilesOf(prev) + accepted
  {
    var all := prev + NewEntries(accepted);
    assert FilesOf(all) == FilesOf(prev) + accepted by {
      forall i | 0 <= i < |all|
        ensures FilesOf(all)[i] == (FilesOf(prev) + accepted)[i]
      {
        if |prev| <= i {
          assert all[i] == NewEntries(accepted)[i - |prev|];
        }
      }
    }
    UploadAllEffect(all);
  }

  /**
   * handleUpload finishes every pending entry, leaves the entries that were not
   * pending as they were, and keeps the files and their order.
   */
  lemma UploadAllEffect(entries: seq<UploadedFile>)
    ensures forall i :: 0 <= i < |entries| && entries[i].status == Pending ==>
      UploadAll(entries)[i].status == Success && UploadAll(entries)[i].progress == 100
    ensures forall i :: 0 <= i < |entries| && entries[i].status != Pending ==>
      UploadAll(entries)[i] == entries[i]
    ensures forall i :: 0 <= i < |entries| ==> UploadAll(entries)[i].status != Pending
    ensures FilesOf(UploadAll(entries)) == FilesOf(entries)
  {
  }

  /** Uploading twice changes nothing the second time. */
  lemma UploadAllIdempotent(entries: seq<UploadedFile>)
    ensures UploadAll(UploadAll(entries)) == UploadAll(entries)
  {
  }

  lemma UploadAllWellFormed(entries: seq<UploadedFile>)
    requires AllWellFormed(entries)
    ensures AllWellFormed(UploadAll(entries))
  {
  }

  /** The progress values `for (progress = from; progress <= 100; progress += 20)` steps through. */
  function ProgressSteps(from: int): seq<int>
    decreases if from <= 100 then 101 - from else 0
  {
    if from > 100 then [] else [from] + ProgressSteps(from + 20)
  }

  /** From a start in 0..100, every step stays in [start, 100] on the 20-grid, and the last one is over 80. */
  lemma {:induction false} ProgressStepsFrom(from: int)
    requires 0 <= from <= 100
    ensures |ProgressSteps(from)| > 0
    ensures forall k :: 0 <= k < |ProgressSteps(from)| ==>
      from <= ProgressSteps(from)[k] <= 100 && (ProgressSteps(from)[k] - from) % 20 == 0
    ensures ProgressSteps(from)[|ProgressSteps(from)| - 1] > 80
    decreases 100 - from
  {
    var rest := ProgressSteps(from + 20);
    if from + 20 <= 100 {
      ProgressStepsFrom(from + 20);
    }
    assert ProgressSteps(from) == [from] + rest;
  }

  /** The loop from 0 reports progress in 0..100 on the 20-grid and ends at exactly 100. */
  lemma ProgressStepsBounded()
    ensures |ProgressSteps(0)| > 0
    ensures forall k :: 0 <= k < |ProgressSteps(0)| ==>
      0 <= ProgressSteps(0)[k] <= 100 && ProgressSteps(0)[k] % 20 == 0
    ensures ProgressSteps(0)[|ProgressSteps(0)| - 1] == 100
  {
    ProgressStepsFrom(0);
  }

  /** simulateUpload's ramp: 0, 20, 40, 60, 80, 100. */
  lemma UploadRamp()
    ensures ProgressSteps(0) == [0, 20, 40, 60, 80, 100]
    ensures forall k :: 0 <= k < |ProgressSteps(0)| ==> ProgressSteps(0)[k] == 20 * k
  {
  }

  /** How the `onUploadComplete` callback behaves; it is the caller's code. */
  datatype CompletionCallback = NoCallback | CallbackReturns | CallbackThrows

  // ---------------------------------------------------------------------------
  // The dialog's state and its buttons
  // ---------------------------------------------------------------------------

  /** What the dialog shows at one moment: its file list and whether an upload runs. */
  datatype DialogState = DialogState(files: seq<UploadedFile>, isUploading: bool)

  /** `disabled={isUploading}` on the Cancel button. */
  function CancelDisabled(st: DialogState): bool
  {
    st.isUploading
  }

  /** The Upload button is disabled when there is nothing to upload or an upload runs. */
  function UploadDisabled(st: DialogState): (disabled: bool)
    ensures !disabled <==> |st.files| > 0 && !st.isUploading
    ensures CancelDisabled(st) ==> disabled
  {
    |st.files| == 0 || st.isUploading
  }

  /** `status === 'pending'`: entry `index` shows a remove button. */
  function RemoveOffered(st: DialogState, index: int): bool
  {
    0 <= index < |st.files| && st.files[index].status == Pending
  }

  /**
   * Entry `index` shows a remove button that can be clicked; whenever one can,
   * Upload can be clicked too.
   */
  function RemoveEnabled(st: DialogState, index: int): (enabled: bool)
    ensures enabled <==> RemoveOffered(st, index) && !CancelDisabled(st)
    ensures enabled ==> !UploadDisabled(st)
  {
    RemoveOffered(st, index) && !st.isUploading
  }

  /** The list part way through handleUpload: entries before `done` are uploaded, the rest untouched. */
  function UploadedUpTo(entries: seq<UploadedFile>, done: int): (r: seq<UploadedFile>)
    ensures |r| == |entries|
    ensures done <= 0 ==> r == entries
    ensures |entries| <= done ==> r == UploadAll(entries)
  {
    seq(|entries|, j requires 0 <= j < |entries| => if j < done then AfterUpload(entries[j]) else entries[j])
  }

  class UploadModal {
    var files: seq<UploadedFile>
    var isUploading: bool

    ghost predicate Valid()
      reads this
    {
      AllWellFormed(files)
    }

    function State(): DialogState
      reads this
    {
      DialogState(files, isUploading)
    }

    constructor ()
      ensures Valid()
      ensures files == [] && !isUploading
      ensures UploadDisabled(State())
    {
      files := [];
      isUploading := false;
    }

    /** Appends one pending entry per accepted file after the existing ones. */
    method OnDrop(accepted: seq<BrowserFile>)
      requires Valid()
      modifies this`files
      ensures Valid()
      ensures files == old(files) + NewEntries(accepted)
      ensures |accepted| > 0 && !isUploading ==> !UploadDisabled(State())
      ensures forall j :: 0 <= j < |old(files)| ==> RemoveOffered(State(), j) == RemoveOffered(old(State()), j)
      ensures forall j :: |old(files)| <= j < |files| ==> RemoveOffered(State(), j)
      ensures !isUploading ==> forall j :: |old(files)| <= j < |files| ==> RemoveEnabled(State(), j)
    {
      files := files + NewEntries(accepted);
    }

    /** Drops entry `index`; an index that names no entry fails in the source. */
    method RemoveFile(index: int)
      requires Valid()
      requires 0 <= index < |files|
      modifies this`files
      ensures Valid()
      ensures files == old(files)[..index] + old(files)[index + 1..]
      ensures |files| == |old(files)| - 1
    {
      RemovedSplicesOut(files, index);
      files := Removed(files, index);
    }

    /**
     * Ramps entry `fileIndex` through the progress steps as `uploading`, then
     * marks it `success` at 100; no other entry changes. `trace` holds the list
     * after each progress update, in order.
     */
    method SimulateUpload(fileIndex: int) returns (ghost trace: seq<seq<UploadedFile>>)
      requires Valid()
      modifies this`files
      ensures Valid()
      ensures files == UpdatedAt(old(files), fileIndex, Success, 100)
      ensures ProgressSteps(0) == [0, 20, 40, 60, 80, 100]
      ensures |trace| == |ProgressSteps(0)|
      ensures forall k :: 0 <= k < |trace| ==>
        && trace[k] == UpdatedAt(old(files), fileIndex, Uploading, ProgressSteps(0)[k])
        && AllWellFormed(trace[k])
    {
      ghost var start := files;
      trace := [];
      var progress := 0;
      while progress <= 100
        invariant 0 <= progress <= 120 && progress % 20 == 0
        invariant AllWellFormed(files)
        invariant progress == 0 ==> files == start
        invariant progress > 0 ==> files == UpdatedAt(start, fileIndex, Uploading, progress - 20)
        invariant |trace| == progress / 20
        invariant forall k :: 0 <= k < |trace| ==>
          && trace[k] == UpdatedAt(start, fileIndex, Uploading, 20 * k)
          && AllWellFormed(trace[k])
        decreases 120 - progress
      {
        UpdatedAtWellFormed(files, fileIndex, Uploading, progress);
        if progress > 0 {
          UpdatedAtTwice(start, fileIndex, Uploading, progress - 20, Uploading, progress);
        }
        files := UpdatedAt(files, fileIndex, Uploading, progress);
        trace := trace + [files];
        progress := progress + 20;
      }
      UpdatedAtWellFormed(files, fileIndex, Success, 100);
      UpdatedAtTwice(start, fileIndex, Uploading, 100, Success, 100);
      files := UpdatedAt(files, fileIndex, Success, 100);
      UploadRamp();
    }

    /**
     * Uploads every entry that was pending when the upload started, then hands
     * the files to the callback (if any) and schedules the dialog to close,
     * unless the callback threw. The busy flag is cleared in every case.
     * `trace` holds the dialog's state when the upload starts and after each entry.
     */
    method HandleUpload(onUploadComplete: CompletionCallback)
      returns (delivered: Option<seq<BrowserFile>>, closeScheduled: bool, ghost trace: seq<DialogState>)
      requires Valid()
      modifies this
      ensures Valid()
      ensures files == UploadAll(old(files))
      ensures !isUploading && !CancelDisabled(State())
      ensures delivered == if onUploadComplete == NoCallback then None else Some(FilesOf(old(files)))
      ensures delivered.Some? ==> delivered.value == FilesOf(files)
      ensures closeScheduled <==> onUploadComplete != CallbackThrows
      ensures forall i :: !RemoveOffered(State(), i)
      ensures |trace| == |old(files)| + 1
      ensures forall k :: 0 <= k < |trace| ==>
        && trace[k] == DialogState(UploadedUpTo(old(files), k), true)
        && AllWellFormed(trace[k].files)
        && UploadDisabled(trace[k])
        && CancelDisabled(trace[k])
      ensures forall k, j :: 0 <= k < |trace| ==> !RemoveEnabled(trace[k], j)
    {
      isUploading := true;
      var snapshot := files;
      trace := [State()];
      var i := 0;
      while i < |snapshot|
        invariant 0 <= i <= |snapshot|
        invariant isUploading
        invariant Valid()
        invariant files == UploadedUpTo(snapshot, i)
        invariant |trace| == i + 1
        invariant forall k :: 0 <= k < |trace| ==>
          trace[k] == DialogState(UploadedUpTo(snapshot, k), true) && AllWellFormed(trace[k].files)
      {
        if snapshot[i].status == Pending {
          ghost var steps := SimulateUpload(i);
        }
        assert files == UploadedUpTo(snapshot, i + 1);
        trace := trace + [State()];
        i := i + 1;
      }
      UploadAllEffect(snapshot);
      delivered := if onUploadComplete == NoCallback then None else Some(FilesOf(snapshot));
      closeScheduled := onUploadComplete != CallbackThrows;
      isUploading := false;
    }

    /** Empties the list. */
    method HandleClose()
      modifies this`files
      ensures Valid()
      ensures files == []
      ensures UploadDisabled(State())
    {
      files := [];
    }
  }
}
