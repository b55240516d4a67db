/**
 * Streaming, resumable download of one file with a digest check and a marker
 * file that records a passed check.
 *
 * SHA-256 is any hasher that obeys the streaming law; a response is the chunks
 * it delivers and how it ends.
 */
module Download {
  import opened Prelude

  type Bytes = seq<bv8>

  const READ_BUFFER_BYTES := 1048576
  const PLACEHOLDER_PREFIX := "PLACEHOLDER_"

  /** An incremental hash: where it starts, how it absorbs bytes, how it ends. */
  datatype Hash<!S> = Hash(start: S, update: (S, Bytes) -> S, finish: S -> string)

  /** Absorbing two pieces is absorbing their concatenation. */
  ghost predicate Absorbs<S>(h: Hash<S>, s: S, a: Bytes, b: Bytes) {
    h.update(s, []) == s && h.update(h.update(s, a), b) == h.update(s, a + b)
  }

  /** The streaming law. */
  ghost predicate Streaming<S(!new)>(h: Hash<S>) {
    forall s, a, b :: Absorbs(h, s, a, b)
  }

  function Digest<S>(h: Hash<S>, data: Bytes): string {
    h.finish(h.update(h.start, data))
  }

  function Flatten(chunks: seq<Bytes>): Bytes {
    if chunks == [] then [] else Flatten(chunks[..|chunks| - 1]) + chunks[|chunks| - 1]
  }

  lemma FlattenSnoc(chunks: seq<Bytes>, i: nat, base: Bytes)
    requires i < |chunks|
    ensures base + Flatten(chunks[..i + 1]) == base + Flatten(chunks[..i]) + chunks[i]
  {
    assert chunks[..i + 1][..i] == chunks[..i];
  }

  /** The status line of a response: an error, 206 Partial Content, or another success. */
  datatype Status = Rejected | PartialContent | Whole

  /**
   * What one attempt meets: the status, the chunks delivered, whether the
   * connection breaks after them, and the first chunk at which the token is
   * already cancelled.
   */
  datatype Transfer = Transfer(status: Status, chunks: seq<Bytes>, broken: bool, cancelAt: Option<nat>)

  datatype Outcome = RequestFailed | Cancelled | Interrupted | HashMismatch | Unchecked | Verified

  /** The destination path and its `.verified` sibling. */
  datatype Disk = Disk(file: Option<Bytes>, marker: Option<string>)

  const EMPTY_DISK := Disk(None, None)

  predicate HasCheck(expected: string) {
    expected != "" && !(PLACEHOLDER_PREFIX <= expected)
  }

  function ResumeFrom(d: Disk): nat {
    if d.file.Some? then |d.file.value| else 0
  }

  predicate Resumes(d: Disk, t: Transfer) {
    ResumeFrom(d) > 0 && t.status == PartialContent
  }

  predicate IsCancelled(t: Transfer) {
    t.cancelAt.Some? && t.cancelAt.value < |t.chunks|
  }

  /** What the file holds once every delivered chunk has been written. */
  function Received(d: Disk, t: Transfer): Bytes {
    (if Resumes(d, t) then d.file.value else []) + Flatten(t.chunks)
  }

  /** The outcome of a whole attempt, without its loops. */
  function Attempt<S>(h: Hash<S>, d: Disk, t: Transfer, expected: string): (Disk, Outcome) {
    if t.status == Rejected then (d, RequestFailed)
    else if IsCancelled(t) then (EMPTY_DISK, Cancelled)
    else if t.broken then (d.(file := Some(Received(d, t))), Interrupted)
    else if !HasCheck(expected) then (d.(file := Some(Received(d, t))), Unchecked)
    else if Digest(h, Received(d, t)) != expected then (d.(file := None), HashMismatch)
    else (Disk(Some(Received(d, t)), Some(expected)), Verified)
  }

  /** The token is cancelled at some delivered chunk. */
  ghost predicate StopsAtCancel(t: Transfer) {
    exists i :: 0 <= i < |t.chunks| && t.cancelAt == Some(i)
  }

  /** The response is read to its end. */
  ghost predicate RunsToEnd(t: Transfer) {
    t.status != Rejected && !StopsAtCancel(t) && !t.broken
  }

  /** What was there, if it was not empty and the server sends only the rest, and then every delivered chunk. */
  ghost function Arrived(file: Option<Bytes>, t: Transfer): Bytes {
    (match file
     case Some(data) => if data != [] && t.status == PartialContent then data else []
     case None => [])
    + Flatten(t.chunks)
  }

  lemma AttemptArrives<S>(h: Hash<S>, d: Disk, t: Transfer, expected: string)
    ensures Received(d, t) == Arrived(d.file, t)
    ensures IsCancelled(t) <==> StopsAtCancel(t)
    ensures HasCheck(expected) <==> expected != "" && !("PLACEHOLDER_" <= expected)
    ensures Digest(h, Received(d, t)) == h.finish(h.update(h.start, Arrived(d.file, t)))
  {
  }

  /** Chunks are concatenated in order. */
  lemma {:induction false} FlattenConcat(xs: seq<Bytes>, ys: seq<Bytes>, chunk: Bytes)
    ensures Flatten([]) == [] && Flatten([chunk]) == chunk
    ensures Flatten(xs + ys) == Flatten(xs) + Flatten(ys)
  {
    assert [chunk][..0] == [];
    if ys == [] {
      assert xs + ys == xs;
    } else {
      var n := |ys| - 1;
      FlattenConcat(xs, ys[..n], chunk);
      assert (xs + ys)[..|xs| + n] == xs + ys[..n];
    }
  }

  class Destination {
    var file: Option<Bytes>
    var marker: Option<string>

    ghost function Contents(): Disk
      reads this
    {
      Disk(file, marker)
    }

    constructor ()
      ensures Contents() == EMPTY_DISK
    {
      file, marker := None, None;
    }

    /** Feeds an existing file to the hasher one buffer at a time. */
    method HashExisting<S(!new)>(h: Hash<S>, data: Bytes) returns (hasher: S)
      requires Streaming(h)
      ensures hasher == h.update(h.start, data)
    {
      hasher := h.start;
      var pos := 0;
      assert Absorbs(h, h.start, [], []);
      while pos < |data|
        invariant 0 <= pos <= |data|
        invariant hasher == h.update(h.start, data[..pos])
      {
        var n := Min(READ_BUFFER_BYTES, |data| - pos);
        assert data[..pos] + data[pos..pos + n] == data[..pos + n];
        assert Absorbs(h, h.start, data[..pos], data[pos..pos + n]);
        hasher := h.update(hasher, data[pos..pos + n]);
        pos := pos + n;
      }
      assert data[..pos] == data;
    }

    /** Streams the chunks to the end of the file, hashing as it writes. */
    method Stream<S(!new)>(h: Hash<S>, t: Transfer, from: S, downloadedBefore: nat)
      returns (hasher: S, downloaded: nat, cancelled: bool)
      requires Streaming(h)
      requires file.Some? && from == h.update(h.start, file.value) && downloadedBefore == |file.value|
      modifies this`file
      ensures file.Some? && hasher == h.update(h.start, file.value) && downloaded == |file.value|
      ensures cancelled == IsCancelled(t)
      ensures !cancelled ==> file.value == old(file).value + Flatten(t.chunks)
    {
      hasher, downloaded, cancelled := from, downloadedBefore, false;
      var i := 0;
      while i < |t.chunks|
        invariant 0 <= i <= |t.chunks|
        invariant file.Some? && file.value == old(file).value + Flatten(t.chunks[..i])
        invariant hasher == h.update(h.start, file.value)
        invariant downloaded == |file.value|
        invariant t.cancelAt.Some? ==> i <= t.cancelAt.value
      {
        if t.cancelAt.Some? && t.cancelAt.value <= i {
          cancelled := true;
          return;
        }
        var item := t.chunks[i];
        FlattenSnoc(t.chunks, i, old(file).value);
        assert Absorbs(h, h.start, file.value, item);
        file := Some(file.value + item);
        hasher := h.update(hasher, item);
        downloaded := downloaded + |item|;
        i := i + 1;
      }
      assert t.chunks[..i] == t.chunks;
    }

    method DownloadFileWithHash<S(!new)>(h: Hash<S>, t: Transfer, expected: string) returns (outcome: Outcome)
      requires Streaming(h)
      modifies this
      ensures (Contents(), outcome) == Attempt(h, old(Contents()), t, expected)
      ensures outcome == RequestFailed <==> t.status == Rejected
      ensures outcome == Cancelled <==> t.status != Rejected && StopsAtCancel(t)
      ensures outcome == Interrupted <==> t.status != Rejected && !StopsAtCancel(t) && t.broken
      ensures outcome == Unchecked <==> RunsToEnd(t) && (expected == "" || "PLACEHOLDER_" <= expected)
      ensures outcome == HashMismatch <==>
                && RunsToEnd(t) && expected != "" && !("PLACEHOLDER_" <= expected)
                && h.finish(h.update(h.start, Arrived(old(file), t))) != expected
      ensures outcome == Verified <==>
                && RunsToEnd(t) && expected != "" && !("PLACEHOLDER_" <= expected)
                && h.finish(h.update(h.start, Arrived(old(file), t))) == expected
      ensures match outcome
              case RequestFailed => file == old(file) && marker == old(marker)
              case Cancelled => file == None && marker == None
              case Interrupted => file == Some(Arrived(old(file), t)) && marker == old(marker)
              case Unchecked => file == Some(Arrived(old(file), t)) && marker == old(marker)
              case HashMismatch => file == None && marker == old(marker)
              case Verified => file == Some(Arrived(old(file), t)) && marker == Some(expected)
    {
      AttemptArrives(h, Contents(), t, expected);
      var resumeFrom := if file.Some? then |file.value| else 0;
      if t.status == Rejected {
        return RequestFailed;
      }
      var hasher, downloaded := h.start, 0;
      if resumeFrom > 0 && t.status == PartialContent {
        hasher := HashExisting(h, file.value);
        downloaded := resumeFrom;
      } else {
        file := Some([]);
        assert Absorbs(h, h.start, [], []);
      }
      var cancelled;
      hasher, downloaded, cancelled := Stream(h, t, hasher, downloaded);
      if cancelled {
        file, marker := None, None;
        return Cancelled;
      }
      if t.broken {
        return Interrupted;
      }
      if expected == "" || PLACEHOLDER_PREFIX <= expected {
        return Unchecked;
      }
      if h.finish(hasher) != expected {
        file := None;
        return HashMismatch;
      }
      marker := Some(expected);
      outcome := Verified;
    }

    method DeleteModel()
      modifies this
      ensures Contents() == EMPTY_DISK && file == None && marker == None
    {
      file, marker := None, None;
    }
  }

  // ---- Runs of attempts and deletions against one body ------------------------

  datatype Action = Try(transfer: Transfer) | Delete

  function Act<S>(h: Hash<S>, d: Disk, a: Action, expected: string): Disk {
    if a.Delete? then EMPTY_DISK else Attempt(h, d, a.transfer, expected).0
  }

  lemma DeletionForgets<S>(h: Hash<S>, d: Disk, expected: string)
    ensures Act(h, d, Delete, expected) == Disk(None, None)
  {
  }

  function Run<S>(h: Hash<S>, d: Disk, actions: seq<Action>, expected: string): Disk {
    if actions == [] then d
    else Act(h, Run(h, d, actions[..|actions| - 1], expected), actions[|actions| - 1], expected)
  }

  /**
   * A server holding `body`: a 206 answer to a Range request carries the rest of
   * the body, any other success the whole body; only a broken transfer may stop short.
   */
  predicate Serves(body: Bytes, d: Disk, t: Transfer) {
    t.status == Rejected ||
    var rest := match d.file
                case Some(data) =>
                  if data != [] && t.status == PartialContent && |data| <= |body| then body[|data|..] else body
                case None => body;
    && Flatten(t.chunks) <= rest
    && (t.broken || Flatten(t.chunks) == rest)
  }

  ghost predicate ServedRun<S>(h: Hash<S>, body: Bytes, d: Disk, actions: seq<Action>, expected: string) {
    forall k :: 0 <= k < |actions| && actions[k].Try? ==>
      Serves(body, Run(h, d, actions[..k], expected), actions[k].transfer)
  }

  /** The file is absent or a prefix of the body. */
  predicate PrefixOf(d: Disk, body: Bytes) {
    d.file.Some? ==> d.file.value <= body
  }

  lemma ReceivedIsPrefix(body: Bytes, d: Disk, t: Transfer)
    requires PrefixOf(d, body) && Serves(body, d, t) && t.status != Rejected
    ensures Received(d, t) <= body
    ensures !t.broken ==> Received(d, t) == body
  {
    var base := if Resumes(d, t) then d.file.value else [];
    assert body == base + body[|base|..];
  }

  lemma AttemptKeepsPrefix<S>(h: Hash<S>, body: Bytes, d: Disk, t: Transfer, expected: string)
    requires PrefixOf(d, body) && Serves(body, d, t)
    ensures PrefixOf(Attempt(h, d, t, expected).0, body)
    ensures t.status != Rejected && !t.broken ==> Received(d, t) == body
  {
    if t.status != Rejected {
      ReceivedIsPrefix(body, d, t);
    }
  }

  lemma {:induction false} ServedPrefix<S>(h: Hash<S>, body: Bytes, d: Disk, actions: seq<Action>, expected: string,
                                           n: nat)
    requires ServedRun(h, body, d, actions, expected) && n <= |actions|
    ensures ServedRun(h, body, d, actions[..n], expected)
  {
    forall k | 0 <= k < n && actions[..n][k].Try?
      ensures Serves(body, Run(h, d, actions[..n][..k], expected), actions[..n][k].transfer)
    {
      assert actions[..n][..k] == actions[..k] && actions[..n][k] == actions[k];
    }
  }

  /**
   * However often attempts are cut off, at whatever chunk, and resumed from
   * whatever length, the file stays absent or a prefix of the body.
   */
  lemma {:induction false} FileStaysPrefix<S>(h: Hash<S>, body: Bytes, actions: seq<Action>, expected: string)
    requires ServedRun(h, body, EMPTY_DISK, actions, expected)
    ensures PrefixOf(Run(h, EMPTY_DISK, actions, expected), body)
  {
    if actions != [] {
      var n := |actions| - 1;
      ServedPrefix(h, body, EMPTY_DISK, actions, expected, n);
      FileStaysPrefix(h, body, actions[..n], expected);
      if actions[n].Try? {
        AttemptKeepsPrefix(h, body, Run(h, EMPTY_DISK, actions[..n], expected), actions[n].transfer, expected);
      }
    }
  }

  /** Each time a marker appears in such a run, the file is the whole body and the body passes the check. */
  lemma {:induction false} MarkerAppearsOnlyVerified<S>(h: Hash<S>, body: Bytes, actions: seq<Action>,
                                                        expected: string, k: nat)
    requires ServedRun(h, body, EMPTY_DISK, actions, expected) && k < |actions|
    requires Run(h, EMPTY_DISK, actions[..k], expected).marker.None?
    requires Run(h, EMPTY_DISK, actions[..k + 1], expected).marker.Some?
    ensures Run(h, EMPTY_DISK, actions[..k + 1], expected) == Disk(Some(body), Some(expected))
    ensures Digest(h, body) == expected
  {
    var d := Run(h, EMPTY_DISK, actions[..k], expected);
    assert actions[..k + 1][..k] == actions[..k];
    assert Run(h, EMPTY_DISK, actions[..k + 1], expected) == Act(h, d, actions[k], expected);
    ServedPrefix(h, body, EMPTY_DISK, actions, expected, k);
    FileStaysPrefix(h, body, actions[..k], expected);
    AttemptKeepsPrefix(h, body, d, actions[k].transfer, expected);
  }

  /** A marker next to a file vouches for the file's contents. */
  predicate Trustworthy<S>(h: Hash<S>, d: Disk, expected: string) {
    d.marker.Some? && d.file.Some? ==> Digest(h, d.file.value) == expected
  }

  /**
   * An attempt leaves a marker beside a file that fails the check exactly when the
   * marker was there, the attempt ended without a check, and what was received
   * fails it.
   */
  lemma {:induction false} MarkerLiesExactlyWhen<S>(h: Hash<S>, d: Disk, t: Transfer, expected: string)
    requires Trustworthy(h, d, expected)
    ensures !Trustworthy(h, Attempt(h, d, t, expected).0, expected) <==>
              && d.marker.Some? && t.status != Rejected && !IsCancelled(t)
              && (t.broken || !HasCheck(expected))
              && Digest(h, Received(d, t)) != expected
  {
  }

  /**
   * A marker can be left beside a file that fails the check exactly when it was
   * there before the attempt: neither the truncation of a restarted download nor
   * its interruption removes it.
   */
  lemma MarkerCanLieOnlyIfPresent<S>(h: Hash<S>, body: Bytes, d: Disk, expected: string)
    requires Trustworthy(h, d, expected) && Digest(h, []) != expected
    ensures (exists t :: Serves(body, d, t) && !Trustworthy(h, Attempt(h, d, t, expected).0, expected))
       <==> d.marker.Some?
  {
    if d.marker.Some? {
      var t := Transfer(Whole, [], true, None);
      assert Serves(body, d, t);
      assert Received(d, t) == [];
      assert Attempt(h, d, t, expected).0 == Disk(Some([]), d.marker);
    }
  }

  /** One attempt that is neither cut off nor cancelled completes any interrupted download. */
  lemma UninterruptedAttemptVerifies<S>(h: Hash<S>, body: Bytes, d: Disk, t: Transfer, expected: string)
    requires PrefixOf(d, body) && Serves(body, d, t)
    requires HasCheck(expected) && Digest(h, body) == expected
    requires t.status != Rejected && !t.broken && !IsCancelled(t)
    ensures Attempt(h, d, t, expected) == (Disk(Some(body), Some(expected)), Verified)
  {
    AttemptKeepsPrefix(h, body, d, t, expected);
  }

  /**
   * After a mismatch, whatever the file, the body and the attempts before were,
   * the next attempt starts from nothing: it keeps what that attempt delivers and
   * no more, and verifies exactly when this passes the check.
   */
  lemma {:induction false} MismatchStartsOver<S>(h: Hash<S>, actions: seq<Action>, t: Transfer, next: Transfer,
                                                 expected: string)
    requires Attempt(h, Run(h, EMPTY_DISK, actions, expected), t, expected).1 == HashMismatch
    requires RunsToEnd(next)
    ensures var d := Attempt(h, Run(h, EMPTY_DISK, actions, expected), t, expected).0;
            var (after, outcome) := Attempt(h, d, next, expected);
            && d.file == None
            && (outcome == Verified <==> h.finish(h.update(h.start, Flatten(next.chunks))) == expected)
            && (outcome == Verified ==> after == Disk(Some(Flatten(next.chunks)), Some(expected)))
            && (outcome != Verified ==> after.file == None && outcome == HashMismatch)
  {
    var d := Run(h, EMPTY_DISK, actions, expected);
    AttemptArrives(h, d, t, expected);
    AttemptArrives(h, Attempt(h, d, t, expected).0, next, expected);
    assert [] + Flatten(next.chunks) == Flatten(next.chunks);
  }

  /**
   * A server that honours every Range request (sections 14.2, 15.3.7 and 15.5.17
   * of RFC 9110): the rest of the body as a 206 answer, or 416 when nothing is left.
   */
  predicate HonoursRange(body: Bytes, d: Disk, t: Transfer) {
    && Serves(body, d, t)
    && (ResumeFrom(d) > 0 ==>
          if ResumeFrom(d) < |body| then t.status == PartialContent else t.status == Rejected)
    && (ResumeFrom(d) == 0 ==> t.status == Whole)
  }

  /**
   * Against such a server, an attempt that is not cut off verifies the download
   * exactly when the file on disk is not already as long as the body.
   */
  lemma ResumeVerifiesUnlessComplete<S>(h: Hash<S>, body: Bytes, d: Disk, t: Transfer, expected: string)
    requires PrefixOf(d, body) && HonoursRange(body, d, t) && body != []
    requires HasCheck(expected) && Digest(h, body) == expected
    requires !t.broken && !IsCancelled(t)
    ensures Attempt(h, d, t, expected).1 == Verified <==> ResumeFrom(d) != |body|
  {
    if ResumeFrom(d) != |body| {
      UninterruptedAttemptVerifies(h, body, d, t, expected);
    }
  }

  /**
   * Hence a download cut off after its last byte but before the check is stuck:
   * no further attempt ever changes the disk.
   */
  lemma {:induction false} CompleteUncheckedFileIsStuck<S>(h: Hash<S>, body: Bytes, actions: seq<Action>,
                                                           expected: string)
    requires body != []
    requires forall k :: 0 <= k < |actions| ==>
               actions[k].Try? &&
               HonoursRange(body, Run(h, Disk(Some(body), None), actions[..k], expected), actions[k].transfer)
    ensures Run(h, Disk(Some(body), None), actions, expected) == Disk(Some(body), None)
  {
    if actions != [] {
      var front := actions[..|actions| - 1];
      forall k | 0 <= k < |front|
        ensures front[k].Try? &&
                HonoursRange(body, Run(h, Disk(Some(body), None), front[..k], expected), front[k].transfer)
      {
        assert front[k] == actions[k] && front[..k] == actions[..k];
      }
      CompleteUncheckedFileIsStuck(h, body, front, expected);
      assert HonoursRange(body, Run(h, Disk(Some(body), None), front, expected), actions[|actions| - 1].transfer);
    }
  }
}
