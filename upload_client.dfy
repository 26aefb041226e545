/**
 * The browser side of the uploader: the queue of files the user picked or
 * dropped, the remove control of each row, and the submit handler that
 * sends the queued files one at a time and stops at the first failure.
 *
 * The network is replaced by a sequence of per-file outcomes: the i-th
 * entry is what the transport reports for the i-th file sent.
 */
module UploadClient {

  /** A file picked or dropped by the user; `blob` stands for the platform's
      file object, which the queue never looks into. */
  datatype PendingFile = PendingFile(name: string, size: nat, blob: nat)

  /** Duplicate test of the queue: same name and same size. */
  predicate SameFile(f: PendingFile, g: PendingFile)
  {
    f.name == g.name && f.size == g.size
  }

  /** Some entry of `q` has the name and size of `f`. */
  predicate Queued(q: seq<PendingFile>, f: PendingFile)
  {
    exists i :: 0 <= i < |q| && SameFile(q[i], f)
  }

  /** The queue invariant: no two entries share name and size. */
  predicate NoDuplicates(q: seq<PendingFile>)
  {
    forall i, j :: 0 <= i < j < |q| ==> !SameFile(q[i], q[j])
  }

  // ---------------------------------------------------------------------
  // Adding files
  // ---------------------------------------------------------------------

  /** One step of adding: append `f` unless a file with its name and size
      is already queued. */
  function AddOne(q: seq<PendingFile>, f: PendingFile): (r: seq<PendingFile>)
    ensures Queued(r, f)
    ensures NoDuplicates(q) ==> NoDuplicates(r)
  {
    if Queued(q, f) then q
    else
      assert SameFile((q + [f])[|q|], f);
      q + [f]
  }

  /** Adding a batch: each candidate is tested against the queue as it has
      grown so far, so a duplicate inside the batch is dropped too. */
  function AddAll(q: seq<PendingFile>, files: seq<PendingFile>): (r: seq<PendingFile>)
    ensures q <= r
    ensures NoDuplicates(q) ==> NoDuplicates(r)
    decreases |files|
  {
    if files == [] then q else AddAll(AddOne(q, files[0]), files[1..])
  }

  /** Reference definition of the files a batch appends, in input order:
      a candidate is kept when it matches neither the queue before the
      batch nor any earlier candidate of the batch. */
  function Selected(q: seq<PendingFile>, files: seq<PendingFile>): seq<PendingFile>
    decreases |files|
  {
    if files == [] then []
    else
      var init, last := files[..|files| - 1], files[|files| - 1];
      Selected(q, init) + (if Queued(q, last) || Queued(init, last) then [] else [last])
  }

  lemma QueuedAppend(q: seq<PendingFile>, s: seq<PendingFile>, x: PendingFile)
    ensures Queued(q + s, x) <==> Queued(q, x) || Queued(s, x)
  {
    if Queued(q, x) {
      var i :| 0 <= i < |q| && SameFile(q[i], x);
      assert (q + s)[i] == q[i];
    }
    if Queued(q + s, x) {
      var i :| 0 <= i < |q + s| && SameFile((q + s)[i], x);
      if i >= |q| {
        assert s[i - |q|] == (q + s)[i];
      }
    }
    if Queued(s, x) {
      var i :| 0 <= i < |s| && SameFile(s[i], x);
      assert (q + s)[|q| + i] == s[i];
    }
  }

  lemma QueuedCons(s: seq<PendingFile>, x: PendingFile)
    requires s != []
    ensures Queued(s, x) <==> SameFile(s[0], x) || Queued(s[1..], x)
  {
  }

  /** Adding a batch that ends in `x` is adding the rest, then `x`. */
  lemma {:induction false} AddAllSnoc(q: seq<PendingFile>, s: seq<PendingFile>, x: PendingFile)
    ensures AddAll(q, s + [x]) == AddOne(AddAll(q, s), x)
    decreases |s|
  {
    if s == [] {
      assert s + [x] == [x];
      assert [x][1..] == [];
    } else {
      assert (s + [x])[0] == s[0];
      assert (s + [x])[1..] == s[1..] + [x];
      AddAllSnoc(AddOne(q, s[0]), s[1..], x);
    }
  }

  /** After a batch, a file is queued exactly when it was queued before or
      is one of the candidates. */
  lemma {:induction false} AddAllQueued(q: seq<PendingFile>, s: seq<PendingFile>, x: PendingFile)
    ensures Queued(AddAll(q, s), x) <==> Queued(q, x) || Queued(s, x)
    decreases |s|
  {
    if s != [] {
      AddAllQueued(AddOne(q, s[0]), s[1..], x);
      QueuedCons(s, x);
      if !Queued(q, s[0]) {
        QueuedAppend(q, [s[0]], x);
        assert Queued([s[0]], x) <==> SameFile(s[0], x) by {
          if SameFile(s[0], x) { assert [s[0]][0] == s[0]; }
        }
      } else if SameFile(s[0], x) {
        var i :| 0 <= i < |q| && SameFile(q[i], s[0]);
        assert SameFile(q[i], x);
      }
    }
  }

  /** The growing-list check of the source agrees with the reference
      definition: a batch appends exactly `Selected(q, files)` after the
      untouched old queue. */
  lemma {:induction false} AddAllIsQueuePlusSelected(q: seq<PendingFile>, files: seq<PendingFile>)
    ensures AddAll(q, files) == q + Selected(q, files)
    decreases |files|
  {
    if files != [] {
      var init, last := files[..|files| - 1], files[|files| - 1];
      assert files == init + [last];
      AddAllIsQueuePlusSelected(q, init);
      AddAllSnoc(q, init, last);
      AddAllQueued(q, init, last);
      SelectedSnoc(q, init, last);
    }
  }

  lemma SelectedSnoc(q: seq<PendingFile>, init: seq<PendingFile>, last: PendingFile)
    ensures Selected(q, init + [last]) ==
      Selected(q, init) + (if Queued(q, last) || Queued(init, last) then [] else [last])
  {
    var files := init + [last];
    assert files[..|files| - 1] == init;
  }

  /** Every appended file is a candidate of the batch and is new to the
      old queue; the appended files are themselves duplicate-free. */
  lemma {:induction false} SelectedAreNew(q: seq<PendingFile>, files: seq<PendingFile>)
    ensures forall f :: f in Selected(q, files) ==> f in files && !Queued(q, f)
    ensures NoDuplicates(Selected(q, files))
    decreases |files|
  {
    if files != [] {
      var init, last := files[..|files| - 1], files[|files| - 1];
      SelectedAreNew(q, init);
      assert files == init + [last];
      var s := Selected(q, init);
      if !(Queued(q, last) || Queued(init, last)) {
        forall i, j | 0 <= i < j < |s + [last]|
          ensures !SameFile((s + [last])[i], (s + [last])[j])
        {
          if j == |s| {
            assert (s + [last])[i] == s[i];
            assert s[i] in init;
            var k :| 0 <= k < |init| && init[k] == s[i];
            assert !SameFile(init[k], last);
          }
        }
      }
    }
  }

  /** A batch of files that are new and pairwise distinct is appended
      whole. */
  lemma {:induction false} AddAllFreshBatch(q: seq<PendingFile>, files: seq<PendingFile>)
    requires NoDuplicates(q + files)
    ensures AddAll(q, files) == q + files
    decreases |files|
  {
    if files != [] {
      var qs := q + files;
      assert !Queued(q, files[0]) by {
        forall i | 0 <= i < |q| ensures !SameFile(q[i], files[0]) {
          assert qs[i] == q[i] && qs[|q|] == files[0];
        }
      }
      assert q + [files[0]] + files[1..] == qs;
      AddAllFreshBatch(q + [files[0]], files[1..]);
    }
  }

  /** After adding a batch, every candidate's name and size is queued. */
  lemma AddAllCoversCandidates(q: seq<PendingFile>, files: seq<PendingFile>, i: nat)
    requires i < |files|
    ensures Queued(AddAll(q, files), files[i])
  {
    AddAllQueued(q, files, files[i]);
    assert SameFile(files[i], files[i]);
  }

  /** Adding files that are all already queued leaves the queue as it is. */
  lemma {:induction false} AddAllOfQueuedIsNoOp(q: seq<PendingFile>, files: seq<PendingFile>)
    requires forall f :: f in files ==> Queued(q, f)
    ensures AddAll(q, files) == q
    decreases |files|
  {
    if files != [] {
      assert files[0] in files;
      assert forall f :: f in files[1..] ==> f in files;
      AddAllOfQueuedIsNoOp(q, files[1..]);
    }
  }

  // ---------------------------------------------------------------------
  // Removing a file
  // ---------------------------------------------------------------------

  /** The remove control of row `i`: splice out entry `i`. */
  function RemoveAt(q: seq<PendingFile>, i: nat): (r: seq<PendingFile>)
    requires i < |q|
    ensures |r| == |q| - 1
    ensures forall j :: 0 <= j < i ==> r[j] == q[j]
    ensures forall j :: i <= j < |r| ==> r[j] == q[j + 1]
    ensures multiset(r) + multiset{q[i]} == multiset(q)
    ensures NoDuplicates(q) ==> NoDuplicates(r)
  {
    assert q == q[..i] + [q[i]] + q[i + 1..];
    q[..i] + q[i + 1..]
  }

  // ---------------------------------------------------------------------
  // Sending the queue
  // ---------------------------------------------------------------------

  /** What the transport reports for one file: a response with a status
      code, or a network error. */
  datatype SendOutcome = Loaded(status: int) | NetworkError

  /** A single upload succeeds only on status 200. */
  predicate Succeeded(o: SendOutcome)
  {
    o.Loaded? && o.status == 200
  }

  predicate AllSucceeded(outs: seq<SendOutcome>)
  {
    forall j :: 0 <= j < |outs| ==> Succeeded(outs[j])
  }

  /** How many files a submission hands to the transport when the i-th
      file gets the outcome `outs[i]`: all of them when every one succeeds,
      otherwise up to and including the first failure. */
  function Attempted(outs: seq<SendOutcome>): (k: nat)
    ensures k <= |outs|
    ensures k == 0 <==> outs == []
    ensures forall j :: 0 <= j < k - 1 ==> Succeeded(outs[j])
    ensures AllSucceeded(outs) ==> k == |outs|
    ensures !AllSucceeded(outs) ==> !Succeeded(outs[k - 1])
    decreases |outs|
  {
    if outs == [] then 0
    else if !Succeeded(outs[0]) then 1
    else 1 + Attempted(outs[1..])
  }

  /** The number of sends is determined by where the first failure is. */
  lemma AttemptedAt(outs: seq<SendOutcome>, i: nat)
    requires i <= |outs|
    requires forall j :: 0 <= j < i ==> Succeeded(outs[j])
    requires i == |outs| || !Succeeded(outs[i])
    ensures Attempted(outs) == if i == |outs| then i else i + 1
    ensures AllSucceeded(outs) <==> i == |outs|
  {
  }

  /** Status message shown under the form, with its styling class. */
  datatype Tone = Neutral | Error | Success
  datatype Message = Message(text: string, tone: Tone)

  const EmptyQueueText: string := "Please select at least one file."
  const SuccessText: string := "All files uploaded successfully!"
  const FailureText: string := "Error uploading files."

  /** Terminal state of one submission attempt. */
  datatype SubmitResult = NothingSelected | AllUploaded | Aborted

  function Zeros(n: nat): (s: seq<nat>)
    ensures |s| == n && forall j :: 0 <= j < n ==> s[j] == 0
  {
    seq(n, _ => 0)
  }

  /** The upload form: the queue, one progress bar per queued file, the
      status message and the submit button's disabled flag. */
  class Uploader {
    var files: seq<PendingFile>
    var progress: seq<nat>
    var message: Message
    var submitDisabled: bool

    ghost predicate Valid()
      reads this
    {
      NoDuplicates(files) && |progress| == |files|
    }

    constructor ()
      ensures Valid()
      ensures files == [] && progress == []
      ensures message == Message("", Neutral) && !submitDisabled
    {
      files := [];
      progress := [];
      message := Message("", Neutral);
      submitDisabled := false;
    }

    /** The duplicate test of `addFiles`: a linear scan of the queue. */
    method IsQueued(f: PendingFile) returns (found: bool)
      ensures found <==> Queued(files, f)
    {
      found := false;
      var i := 0;
      while i < |files| && !found
        invariant 0 <= i <= |files|
        invariant found ==> Queued(files, f)
        invariant !found ==> forall j :: 0 <= j < i ==> !SameFile(files[j], f)
      {
        found := SameFile(files[i], f);
        i := i + 1;
      }
    }

    /** Append each candidate in turn unless its name and size are queued,
        then re-render the list, which resets every progress bar. */
    method AddFiles(candidates: seq<PendingFile>)
      requires Valid()
      modifies this`files, this`progress
      ensures Valid()
      ensures files == AddAll(old(files), candidates)
      ensures files == old(files) + Selected(old(files), candidates)
      ensures progress == Zeros(|files|)
    {
      var k := 0;
      while k < |candidates|
        invariant 0 <= k <= |candidates|
        invariant files == AddAll(old(files), candidates[..k])
      {
        var dup := IsQueued(candidates[k]);
        if !dup {
          files := files + [candidates[k]];
        }
        assert candidates[..k + 1] == candidates[..k] + [candidates[k]];
        AddAllSnoc(old(files), candidates[..k], candidates[k]);
        k := k + 1;
      }
      assert candidates[..k] == candidates;
      AddAllIsQueuePlusSelected(old(files), candidates);
      progress := Zeros(|files|);
    }

    /** The remove control of row `index`, then a re-render. */
    method Remove(index: nat)
      requires Valid()
      requires index < |files|
      modifies this`files, this`progress
      ensures Valid()
      ensures files == RemoveAt(old(files), index)
      ensures progress == Zeros(|files|)
    {
      files := RemoveAt(files, index);
      progress := Zeros(|files|);
    }

    /** One transfer: it succeeds exactly on status 200, and only then is
        the file's progress bar set to 100. */
    method UploadFile(i: nat, outcome: SendOutcome) returns (ok: bool)
      requires i < |progress|
      modifies this`progress
      ensures ok <==> outcome == Loaded(200)
      ensures progress == if ok then old(progress)[i := 100] else old(progress)
    {
      ok := outcome.Loaded? && outcome.status == 200;
      if ok {
        progress := progress[i := 100];
      }
    }

    /** The submit handler. `outcomes[i]` is what the transport reports for
        the i-th queued file; `sent` lists the files handed to it, in the
        order they were sent. */
    method Submit(outcomes: seq<SendOutcome>) returns (sent: seq<PendingFile>, result: SubmitResult)
      requires Valid()
      requires |outcomes| >= |files|
      modifies this
      ensures Valid()
      // an empty queue: no transfer, an error message, button untouched
      ensures old(files) == [] ==>
        && sent == [] && result == NothingSelected
        && message == Message(EmptyQueueText, Error)
        && files == old(files) && progress == old(progress)
        && submitDisabled == old(submitDisabled)
      // otherwise: files go out in queue order until the first failure
      ensures old(files) != [] ==>
        var n := |old(files)|;
        var k := Attempted(outcomes[..n]);
        && sent == old(files)[..k]
        && !submitDisabled
        && (result == AllUploaded <==> AllSucceeded(outcomes[..n]))
        && result != NothingSelected
      ensures result == AllUploaded ==>
        && files == [] && progress == []
        && message == Message(SuccessText, Success)
      ensures result == Aborted ==>
        var k := |sent|;
        && 0 < k <= |files|
        && !Succeeded(outcomes[k - 1])
        && (forall j :: 0 <= j < k - 1 ==> Succeeded(outcomes[j]))
        && files == old(files)
        && |progress| == |files|
        && (forall j :: 0 <= j < |files| ==>
              progress[j] == if j < k - 1 then 100 else old(progress)[j])
        && message == Message(FailureText, Error)
    {
      if |files| == 0 {
        message := Message(EmptyQueueText, Error);
        return [], NothingSelected;
      }
      message := Message("", Neutral);
      submitDisabled := true;

      var n := |files|;
      var i := 0;
      var aborted := false;
      sent := [];
      while i < n && !aborted
        invariant 0 <= i <= n
        invariant files == old(files) && |progress| == n
        invariant !aborted ==> |sent| == i
        invariant aborted ==> |sent| == i + 1 && i < n && !Succeeded(outcomes[i])
        invariant sent == files[..|sent|]
        invariant forall j :: 0 <= j < i ==> Succeeded(outcomes[j])
        invariant forall j :: 0 <= j < n ==>
                    progress[j] == if j < i then 100 else old(progress)[j]
        decreases n - i, if aborted then 0 else 1
      {
        sent := sent + [files[i]];
        var ok := UploadFile(i, outcomes[i]);
        if ok {
          i := i + 1;
        } else {
          aborted := true;
        }
      }

      AttemptedAt(outcomes[..n], i);
      if !aborted {
        message := Message(SuccessText, Success);
        files := [];
        progress := [];
        result := AllUploaded;
      } else {
        message := Message(FailureText, Error);
        result := Aborted;
      }
      submitDisabled := false;
    }
  }

  /** A submission whose third file fails: the first three files are sent,
      no later one is, and the queue is kept for a retry. */
  method ThirdFileFails(u: Uploader) returns (sent: seq<PendingFile>, result: SubmitResult)
    requires u.Valid() && |u.files| >= 3
    modifies u
    ensures sent == old(u.files)[..3] && result == Aborted
    ensures u.files == old(u.files) && u.message == Message(FailureText, Error)
    ensures !u.submitDisabled
    ensures u.Valid() && u.progress[0] == 100 && u.progress[1] == 100
  {
    var queue := u.files;
    var outs := [Loaded(200), Loaded(200), Loaded(500)] + seq(|queue| - 3, _ => Loaded(200));
    AttemptedAt(outs[..|queue|], 2);
    sent, result := u.Submit(outs);
  }
}
