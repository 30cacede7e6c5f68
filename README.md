# Loan-document portal: data helpers and upload dialog, in Dafny

This project models the two parts of the loan-document portal front end that have
behaviour of their own:

- **The mock data layer** (`src/lib/mock-data.ts`). It holds the record types: loan
  applications with their documents, activity log and messages. It also holds the
  helpers the pages call: look up an application by id, filter applications by
  status, list an application's documents in one status, its unread messages and
  its most recent activity, map a status to a badge colour, format a snake_case
  status for display, and check the demo credentials. The helpers are pure
  functions (module `MockData`). They are parameterised over any list of
  applications instead of the literal sample records. They are built from models
  of JavaScript's `find`, `filter` and `slice` (module `Sequences`) and of `split`,
  `join` and `toUpperCase` (module `Strings`).
- **The upload dialog's file list** (`src/components/custom/DocumentUploadModal.tsx`).
  Its state is a list of entries and an `isUploading` flag. The list changes on a
  drop, on removing an entry, on a simulated upload that ramps one entry's
  progress 0, 20, …, 100 and marks it `success`, on "upload all pending", and on
  close. This is the class `DocumentUpload.UploadModal`: a `seq` field and a flag,
  with methods whose loops follow the source's `for` loops. Each single update the
  source makes (append, filter-by-index, map-at-index) is a pure list function with
  its own lemmas. Every entry keeps its progress in 0..100 on the 20-grid: 0 while
  `pending`, 100 once `success`. This is the class invariant `Valid()`.

The buttons' enabled state is a function of a `DialogState` value (the list and
the busy flag): `UploadDisabled`, `CancelDisabled`, `RemoveOffered` and
`RemoveEnabled`. `SimulateUpload` and `HandleUpload` return ghost traces of the
states they pass through, so their contracts say what holds while they run, not
only at the end. `OnDrop` and `HandleClose` state when Upload becomes enabled or
disabled.

Time is abstracted away: each `await` and `setTimeout` becomes an immediate step in
program order. The `onUploadComplete` callback is the page's own code. It becomes a
parameter: absent, returns, or throws. This keeps the `try`/`catch`/`finally` paths
of `handleUpload`. The one-second timer that closes the dialog after an upload
becomes the result `closeScheduled`. The close itself is a later `HandleClose` call.

## Model

| member | source | states |
|---|---|---|
| `MockData.GetApplicationById` | src/lib/mock-data.ts:505-507 | None exactly when no application has the id; otherwise the result has the id and is the first application in the list that has it |
| `Sequences.Find` | src/lib/mock-data.ts:506 | `find` returns undefined exactly when no element satisfies the predicate, else the first element that does |
| `Sequences.Filter` | src/lib/mock-data.ts:510 | `filter` returns an order-preserving subsequence in which every element satisfies the predicate and every satisfying element keeps its multiplicity |
| `MockData.GetApplicationsByStatus` | src/lib/mock-data.ts:509-511 | the result is a subsequence of the list, holds only applications in that status, and holds every application in that status as often as the list does |
| `MockData.GetDocumentsByStatus` | src/lib/mock-data.ts:513-516 | [] for an unknown id; otherwise a subsequence of that application's documents holding exactly its documents in the status |
| `MockData.GetUnreadMessages` | src/lib/mock-data.ts:518-521 | [] for an unknown id; otherwise a subsequence of that application's messages holding exactly its unread ones |
| `MockData.GetRecentActivity` | src/lib/mock-data.ts:523-526 | [] for an unknown id; otherwise a prefix of the activity list of length min(limit, length) for limit >= 0 (default 5), and of length max(0, length + limit) for a negative limit, as `slice(0, limit)` gives |
| `Sequences.SlicePrefix` | src/lib/mock-data.ts:525 | defines `slice(0, end)` as the prefix up to `SliceEnd`; what it yields (a prefix of length min(limit, length), or length + limit for a negative limit) is stated by `MockData.GetRecentActivity` |
| `MockData.GetStatusColor` | src/lib/mock-data.ts:529-549 | total on every string; always one of warning, info, success, secondary, error; secondary for any string missing from the table |
| `MockData.ApplicationStatusColor` | src/lib/mock-data.ts:530-537 | every application status gets the colour its row of the table gives |
| `MockData.DocumentStatusColor` | src/lib/mock-data.ts:539-546 | every document status gets the colour its row of the table gives |
| `MockData.SharedStatusKeysAgree` | src/lib/mock-data.ts:530-546 | the repeated keys `under_review` and `approved` carry the same colour in both halves of the literal, so which half wins does not matter |
| `MockData.UnknownStatusIsSecondary` | src/lib/mock-data.ts:548 | a string that spells no status of either kind gets `secondary` |
| `Strings.Split` | src/lib/mock-data.ts:554 | `split` yields at least one piece and no piece contains the separator |
| `Strings.Join` | src/lib/mock-data.ts:556 | `join` of at least one word starts with the first word and has the words' total length plus one separator between each pair; of no words it is empty |
| `Strings.JoinSplit` | src/lib/mock-data.ts:554-556 | joining the pieces of a split with the same separator gives the string back |
| `Strings.SplitJoin` | src/lib/mock-data.ts:554-556 | splitting a join of separator-free words gives the words back |
| `MockData.FormatStatus` | src/lib/mock-data.ts:552-557 | split-capitalise-join equals the independent character-by-character title-casing walk, and keeps the length |
| `MockData.FormatStatusShape` | src/lib/mock-data.ts:552-557 | formatStatus preserves length, maps each `_` to one space, upper-cases the first character of each word and leaves every other character unchanged |
| `MockData.FormatStatusUpperCaseExactlyAtWordStarts` | src/lib/mock-data.ts:552-557 | on a lower-case snake_case status, an output character is upper case exactly when it starts a word |
| `MockData.FormatStatusExample` | src/lib/mock-data.ts:552-557 | `resubmit_requested` is displayed as `Resubmit Requested` |
| `MockData.MockLogin` | src/lib/mock-data.ts:560-570 | succeeds exactly for the demo user's email with password `demo123`; success carries the demo user and no error, failure carries `Invalid email or password` and no user |
| `DocumentUpload.NewEntries` | src/components/custom/DocumentUploadModal.tsx:52-57 | one entry per accepted file, in order, each pending at progress 0 with no error, with a preview token exactly for image files, all satisfying the entry invariant |
| `DocumentUpload.UploadModal.constructor` | src/components/custom/DocumentUploadModal.tsx:48-49 | the dialog starts with no entries, not uploading, Upload disabled |
| `DocumentUpload.UploadModal.OnDrop` | src/components/custom/DocumentUploadModal.tsx:51-59 | the new list is the old list followed by the new entries; the old entries are unchanged and keep their remove buttons; every dropped entry shows a remove button, clickable while idle; a non-empty drop while idle enables Upload |
| `DocumentUpload.Removed` | src/components/custom/DocumentUploadModal.tsx:86 | filtering by index drops one entry for an index in range and none otherwise, and keeps only entries of the old list |
| `DocumentUpload.RemovedSplicesOut` | src/components/custom/DocumentUploadModal.tsx:86 | filtering out an index in range is splicing out exactly that entry, the rest in their order |
| `DocumentUpload.RemovedOutOfRange` | src/components/custom/DocumentUploadModal.tsx:86 | filtering out an index that names no entry changes nothing |
| `DocumentUpload.UploadModal.RemoveFile` | src/components/custom/DocumentUploadModal.tsx:80-88 | for an index in range, the list loses that one entry, its length drops by one, the others keep their order, and the invariant is kept |
| `DocumentUpload.UpdatedAt` | src/components/custom/DocumentUploadModal.tsx:94-100 | the index-guarded map changes the status and progress of the entry at that index and nothing else; an index out of range changes nothing |
| `DocumentUpload.ProgressStepsBounded` | src/components/custom/DocumentUploadModal.tsx:92 | the loop from 0 reports progress in 0..100 on the 20-grid and its last value is exactly 100 |
| `DocumentUpload.UploadRamp` | src/components/custom/DocumentUploadModal.tsx:92 | the loop from 0 steps through 0, 20, 40, 60, 80, 100: its k-th value is 20k |
| `DocumentUpload.UploadModal.SimulateUpload` | src/components/custom/DocumentUploadModal.tsx:90-111 | the returned trace holds the list after each of the six progress updates: the entry at the index is `uploading` at 0, 20, 40, 60, 80, 100 in turn, nothing else differs from the starting list, and every traced list keeps the entry invariant; the final list has the entry `success` at 100 and nothing else changed |
| `DocumentUpload.UploadAll` | src/components/custom/DocumentUploadModal.tsx:118-122 | the list after the upload loop keeps every entry's file in place and leaves no entry pending |
| `DocumentUpload.FilesOf` | src/components/custom/DocumentUploadModal.tsx:129 | defines `map(f => f.file)`, the callback's argument; `DroppedFilesInOrder` and `HandleUpload` state what it holds |
| `DocumentUpload.DroppedFilesInOrder` | src/components/custom/DocumentUploadModal.tsx:118-129 | a drop appends exactly its files, in their order, to what the callback will receive, and the upload loop does not change that argument |
| `DocumentUpload.UploadAllEffect` | src/components/custom/DocumentUploadModal.tsx:118-122 | after handleUpload every formerly pending entry is `success` at 100, every other entry is unchanged, none is pending, and the files are the same in the same order |
| `DocumentUpload.UploadAllIdempotent` | src/components/custom/DocumentUploadModal.tsx:118-122 | a second upload over the result changes nothing |
| `DocumentUpload.UploadAllWellFormed` | src/components/custom/DocumentUploadModal.tsx:118-122 | uploading all pending entries keeps the entry invariant |
| `DocumentUpload.UploadModal.HandleUpload` | src/components/custom/DocumentUploadModal.tsx:113-141 | the returned trace holds the state at the start and after each entry: the busy flag is set, the first k entries are uploaded and the rest untouched, the invariant holds, and Upload, Cancel and every remove button are disabled; at the end exactly the entries pending at the start are uploaded, the flag is cleared and Cancel enabled on every path, the callback gets the files in list order, closing is scheduled unless the callback threw, and no remove button is left |
| `DocumentUpload.UploadedUpTo` | src/components/custom/DocumentUploadModal.tsx:118-122 | the list part way through the upload loop: untouched before the first entry, equal to the whole upload after the last |
| `DocumentUpload.CancelDisabled` | src/components/custom/DocumentUploadModal.tsx:315-319 | defines `disabled={isUploading}`; `HandleUpload` states that Cancel is disabled in every state of the upload and enabled again afterwards |
| `DocumentUpload.UploadDisabled` | src/components/custom/DocumentUploadModal.tsx:322-326 | Upload is enabled exactly when there are entries and no upload runs; it is disabled whenever Cancel is |
| `DocumentUpload.RemoveOffered` | src/components/custom/DocumentUploadModal.tsx:285-294 | defines `status === 'pending'` for an existing entry; `OnDrop` states that every dropped entry gets a remove button, and `HandleUpload` that none is left afterwards |
| `DocumentUpload.RemoveEnabled` | src/components/custom/DocumentUploadModal.tsx:285-294 | a remove button can be clicked exactly when it is shown and no upload runs; then Upload can be clicked too |
| `DocumentUpload.UploadModal.HandleClose` | src/components/custom/DocumentUploadModal.tsx:143-152 | the list is left empty and Upload is disabled |

## Left out

- Literal sample data (`MOCK_APPLICATIONS`): the queries take the list as a parameter. The counters in the sample records are not consistent with their document lists, and the code promises no relation between them.
- Timers, promises and `await` (the 1 s login delay, the 200 ms progress ticks, the 500 ms pause, the 1 s close timer): each becomes an immediate step.
- React's asynchronous state updates: the handlers run one at a time. `HandleUpload` reads the list as it was when the upload started, as the source's closure does. A removal cannot happen during an upload, because its button is disabled. A drop during an upload is not modelled. Neither is closing the dialog during an upload through the dialog's own close control (`onOpenChange={handleClose}`, which stays live while Cancel is disabled): that would empty the list mid-run while the callback still receives the stale snapshot.
- The `console.error` logging in `handleUpload`'s `catch` block: the model keeps only that the error is swallowed (no close is scheduled and the flag is cleared).
- File acceptance by the drop-zone library (the MIME whitelist and the 25 MiB size limit): `OnDrop` receives the files already accepted.
- Browser object URLs: a preview is an opaque token created for an image file; releasing it on removal and on close is not modelled.
- `formatFileSize` (floating-point logarithms and rounding), `getFileIcon` and all rendering.
- `handleClose`'s call of the parent's `onClose`, and the login page's use of local storage: both are the callers' code.
- `MockData.GetStatusColor`: the lookup is over the table's own keys. A string naming an inherited object property such as `constructor` is not modelled, because the parameter's type admits only status strings.
- `MockData.GetRecentActivity`: the limit is an integer. The source's `limit` is a JavaScript `number`, and `slice` truncates a fractional one toward zero; fractional limits are not modelled.
- `MockData.FormatStatusShape`: upper-casing is modelled for ASCII letters only (`Strings.ToUpperCase`). Every status string is lower-case ASCII with underscores; JavaScript's full Unicode case mapping is not modelled.
- `DocumentUpload.UploadModal.RemoveFile`: requires an index in range. The source reads the entry before filtering, and an index out of range makes that read throw.
- The `error` status and an entry's `error` message are declared in the source but nothing sets them; the model carries them and no operation produces them.
- `DocumentUpload.UploadModal.SimulateUpload` does not check the entry's status, as in the source. `HandleUpload` calls it only on pending entries.
