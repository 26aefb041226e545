# File uploader: queue and ingestion rules

A Dafny model of a small browser/server file uploader.

- `upload_client.dfy`, module `UploadClient`, models the browser script `public/upload.js`.
  - The class `Uploader` holds the queue of pending files (`files`), one progress value per row (`progress`), the status message and the submit button's disabled flag.
  - Adding files skips any file whose name and size are already queued. The check runs against the list as it grows, so duplicates inside one batch are dropped too.
  - The remove control splices out one row.
  - Submit refuses an empty queue. Otherwise it sends the files one at a time, in queue order. It stops at the first send that does not answer 200 and keeps the queue for a retry. When every send succeeds it empties the queue. Both outcomes end with the button enabled.
  - The network is a parameter: `outcomes[i]` is what the transport reports for the i-th queued file (a status code, or a network error). `Submit` also returns `sent`, the files handed to the transport in order, so "no request is made" can be stated.
- `ingestion.dfy`, module `Ingestion`, models `server.js`.
  - The type allow-list of the upload middleware.
  - The storage rules: a fixed directory, and the name `<timestamp>-<original name>`.
  - The answer of `POST /upload`. The clock is a parameter `now` (milliseconds, a natural number).
  - The stored name is proved to read back, by splitting at its first hyphen, into exactly the timestamp and original name it was built from.

Two behaviours of the code worth stating:
- Rejected types. The route's message `No file uploaded or invalid file type.` mentions an invalid type, but such a request never reaches the route. `server.js:39` passes an `Error` to the middleware, and the framework's error handling, which is not part of this model, picks the status. The model ends such a request in `Failed("Unsupported file type")` and claims no status for it. The 400 answer with that message is proved only for a request carrying no file.
- Queue after a failure. `public/upload.js:99-104` clears the queue only on success and keeps it after a failure. The model does the same.

## Model

| member | source | states |
|---|---|---|
| `UploadClient.AddOne` | public/upload.js:46-47 | after one step the file's name and size are queued; a duplicate-free queue stays duplicate-free |
| `UploadClient.AddAll` | public/upload.js:43-49 | adding a batch keeps the old queue as a prefix (nothing removed or reordered), and keeps the queue free of duplicate name and size pairs |
| `UploadClient.AddAllIsQueuePlusSelected` | public/upload.js:43-49 | the growing-list check equals the reference rule: the batch appends, in input order, exactly the candidates that match neither the old queue nor an earlier candidate |
| `UploadClient.AddAllQueued` | public/upload.js:44-47 | after a batch, a name and size pair is queued if and only if it was queued before or belongs to some candidate |
| `UploadClient.SelectedAreNew` | public/upload.js:44-47 | every appended file is one of the candidates and was not queued before; the appended files are pairwise distinct |
| `UploadClient.AddAllCoversCandidates` | public/upload.js:44-47 | after a batch, every candidate's name and size is in the queue |
| `UploadClient.AddAllOfQueuedIsNoOp` | public/upload.js:46 | adding files whose name and size are all already queued leaves the queue unchanged |
| `UploadClient.AddAllFreshBatch` | public/upload.js:44-47 | a batch that is new and pairwise distinct is appended whole, in order |
| `UploadClient.RemoveAt` | public/upload.js:66-67 | removing row i gives a queue one shorter: the entries before i are in place, the entries after i move down by one, exactly that entry leaves the multiset, and no duplicate appears |
| `UploadClient.Attempted` | public/upload.js:87-104 | the number of files sent is 0 only for an empty queue; every sent file but the last succeeded; all files are sent when all succeed; otherwise the last file sent is the first failure |
| `UploadClient.AttemptedAt` | public/upload.js:88-97 | the number of sends is fixed by the first failure: the index of the first failing file plus one, or the queue length; the batch succeeds if and only if no file fails |
| `UploadClient.Uploader.constructor` | public/upload.js:9 | the page starts with an empty queue, no bars, a blank message and the button enabled |
| `UploadClient.Uploader.IsQueued` | public/upload.js:46 | the duplicate scan answers true exactly when a queued entry has the same name and size |
| `UploadClient.Uploader.AddFiles` | public/upload.js:43-51 | the new queue is the old queue followed by the selected candidates; no duplicates; the re-render sets every bar to 0 |
| `UploadClient.Uploader.Remove` | public/upload.js:66-68 | the new queue is the old one with row `index` spliced out; the invariant holds; the re-render sets every bar to 0 |
| `UploadClient.Uploader.UploadFile` | public/upload.js:123-130 | one send succeeds exactly when the status is 200, and only then is that file's bar set to 100 |
| `UploadClient.Uploader.Submit` | public/upload.js:76-107 | an empty queue gives no send, the "Please select at least one file." error and an untouched button; otherwise the sent files are the queue's prefix up to the first failure; if all succeed, the queue and bars are empty and the success message shows; if one fails, later files are not sent, the queue is unchanged, the bars before the failure read 100 and the error message shows; the button ends enabled |
| `UploadClient.ThirdFileFails` | public/upload.js:88-104 | when the third file fails, exactly the first three are sent, the queue is kept with its invariant, the first two bars read 100, the error message shows and the button is enabled |
| `Ingestion.Includes` | server.js:36 | list membership: true exactly when some entry equals the value |
| `Ingestion.FileFilter` | server.js:28-41 | a type is accepted if and only if it is one of the five listed types; anything else is rejected with "Unsupported file type" |
| `Ingestion.DecimalString` | server.js:23 | the timestamp prints as a non-empty run of decimal digits, with a leading zero only for 0 |
| `Ingestion.ParseDecimalString` | server.js:23 | reading the printed digits back gives the timestamp |
| `Ingestion.StoredNameRoundTrip` | server.js:22-24 | splitting a stored name at its first hyphen gives back the timestamp and the exact original name, hyphens in the original name included |
| `Ingestion.StoredNameInjective` | server.js:22-24 | two stored names are equal only when their timestamps and their original names are |
| `Ingestion.Destination` | server.js:19-21 | the destination is the one upload directory, whatever the file |
| `Ingestion.Store` | server.js:18-25 | a stored file lands in the upload directory and keeps its original name and type; its stored name is exactly `<timestamp>-<original name>` and reads back as (timestamp, original name) |
| `Ingestion.HandleUpload` | server.js:46-51 | the handler answers 400 with "No file uploaded or invalid file type." exactly when no file was stored, and otherwise 200 with the stored name in `filename` |
| `Ingestion.ProcessUpload` | server.js:43-51 | no file gives 400 with the fixed message; an allowed file gives 200 with `<now>-<original name>`; a rejected type ends in the filter's error |
| `Ingestion.SuccessOnlyForAllowedFile` | server.js:36-50 | a 200 answer implies an allowed type, and its `filename` reads back as (timestamp, original name) |
| `Ingestion.RejectedFileNeverStored` | server.js:36-43 | a file whose type is not allowed never reaches storage; the request ends in the filter's error, with no stored name |
| `Ingestion.ReportPdfIsStored` | server.js:22-50 | `report.pdf` sent as `application/pdf` is answered 200 with digits, a hyphen and `report.pdf` |
| `Ingestion.ExecutableIsRefused` | server.js:29-39 | `application/x-msdownload` is refused by the filter |

## Left out

- User-interface work is left out: building the list's HTML, event listeners, drag-and-drop styling and message styling. The message is kept as its text and its tone (neutral, error, success).
- Progress events during a transfer (`public/upload.js:116-121`) are left out, because they are floating point and callbacks. A bar is 0 after each re-render and 100 after a 200 answer. `UploadClient.Uploader.Submit` leaves the failing file's bar at its old value, although intermediate progress events could have moved it.
- Concurrency is left out. The model assumes no add or remove happens while a submission awaits a response. The source re-reads the queue length on each loop turn, so such a click would change what is sent.
- `UploadClient.Uploader.Remove` requires a valid index. The source only calls it from the button of a row that exists, and every re-render rebuilds the buttons. The out-of-range no-op of the source's `splice` is not modelled.
- `UploadClient.Uploader.Submit` requires one transport outcome per queued file; the outcomes stand in for the network.
- `form.reset()` after success is left out, because it only clears the file input element.
- How the filter's error travels through the middleware and the framework, and the HTTP status it gets, are left out. Those are library code.
- Static file serving, creating the upload directory at startup, the listening port and the `PORT` variable are left out.
- Writing the file's bytes to disk is left out. The model records only where a file goes and under what name.
- `Date.now()` is left out; the timestamp is a parameter. Two uploads of the same name in the same millisecond would get the same stored name; `Ingestion.StoredNameInjective` states that this is the only way names collide.
- `UploadClient.Uploader.AddFiles` saves no reference to the source's file objects. A file's identity is its name, its size and an opaque `blob` number.
- `Ingestion.DecimalString` models how JavaScript prints a non-negative integer timestamp as plain decimal. That holds below 10^21, which covers every millisecond clock value. Exponent notation above that bound is not modelled.
- `Ingestion.UploadDirectory` is the directory name `uploads` next to the server script. Path joining is not modelled.
