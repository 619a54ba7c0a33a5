/**
 * The attachment ingestion of gmail.py (`check_and_download_attachments`): for
 * every listed inbox message it scans the top-level parts of the payload, keeps
 * the parts whose filename ends in ".xls", ".xlsx" or ".csv", takes the bytes
 * from the inline body data or else from one attachment fetch, decodes them
 * and uploads them to the bucket under the profile's e-mail address.
 *
 * The Gmail API is an argument: a `Mailbox` says what the list, get,
 * attachment and profile calls return. The source has no exception handling,
 * so a call that raises (a failed list, get or attachment fetch, a decode
 * error, a missing profile) ends the run; the uploads made before it remain
 * in the bucket.
 */
module Gmail {
  import opened Wrappers
  import opened Base64Url
  import opened Storage

  // ---------------------------------------------------------------------------
  // The messages as the Gmail API returns them

  /** A part's body: the inline `data` and the `attachmentId`, each None when the key is absent. */
  datatype Body = Body(data: Option<string>, attachmentId: Option<string>)

  /** A MIME part: its `filename` (None when absent), its body and its own child parts. */
  datatype Part = Part(filename: Option<string>, body: Body, parts: seq<Part>)

  /** A message payload; `parts` is None when the key is absent. */
  datatype Payload = Payload(parts: Option<seq<Part>>)

  /** A message fetched in full; only its payload is read. */
  datatype Message = Message(payload: Option<Payload>)

  datatype AttachmentKey = AttachmentKey(messageId: string, attachmentId: string)

  /**
   * What the API shows for one set of credentials: the ids on the one page
   * the inbox listing returns (at most 100 by default; the source never asks
   * for the next page; None when the list call raises; an absent `messages`
   * key is the empty list), the message each get call returns (an id that is absent
   * raises), the `data` each attachment fetch returns (a key that is absent
   * raises), and the profile's `emailAddress` (None when getProfile raises).
   */
  datatype Mailbox = Mailbox(
    listed: Option<seq<string>>,
    messages: map<string, Message>,
    attachments: map<AttachmentKey, string>,
    profile: Option<string>)

  /** The clock: the UTC second read by the upload that writes the n-th object of the bucket. */
  type Clock = nat -> Instant

  // ---------------------------------------------------------------------------
  // Which parts are looked at and which are kept

  /** `payload.parts`, or the empty list when the payload or its parts are absent. */
  function TopParts(m: Message): seq<Part>
  {
    if m.payload.Some? && m.payload.value.parts.Some? then m.payload.value.parts.value else []
  }

  /** A top-level part together with the id of its message. */
  datatype Candidate = Candidate(messageId: string, part: Part)

  /** The top-level parts of message `m`, listed under id `id`. */
  function Tagged(id: string, m: Message): (cs: seq<Candidate>)
    ensures |cs| == |TopParts(m)|
  {
    seq(|TopParts(m)|, j requires 0 <= j < |TopParts(m)| => Candidate(id, TopParts(m)[j]))
  }

  lemma TaggedPrefix(id: string, m: Message, j: nat)
    requires j < |TopParts(m)|
    ensures Tagged(id, m)[..j + 1] == Tagged(id, m)[..j] + [Candidate(id, TopParts(m)[j])]
  {
  }

  /** The parts the loop can visit: the top-level parts of every listed message that the get call returns, in order. */
  function Candidates(box: Mailbox, ids: seq<string>): seq<Candidate>
  {
    if ids == [] then []
    else
      var id := ids[|ids| - 1];
      Candidates(box, ids[..|ids| - 1]) + (if id in box.messages then Tagged(id, box.messages[id]) else [])
  }

  predicate EndsWith(s: string, suffix: string)
  {
    |suffix| <= |s| && s[|s| - |suffix|..] == suffix
  }

  /** The case-sensitive extension test of the source. */
  predicate AllowedName(filename: string)
  {
    EndsWith(filename, ".xls") || EndsWith(filename, ".xlsx") || EndsWith(filename, ".csv")
  }

  /** A part passes the filename filters: a non-empty filename with an allowed extension. */
  predicate Selected(p: Part)
  {
    p.filename.Some? && p.filename.value != "" && AllowedName(p.filename.value)
  }

  /** A part that is uploaded when no call raises: selected, with inline data or an attachment id. */
  predicate Eligible(c: Candidate)
  {
    Selected(c.part) && (c.part.body.data.Some? || c.part.body.attachmentId.Some?)
  }

  // ---------------------------------------------------------------------------
  // What one part does

  datatype Upload = Upload(owner: string, filename: string, data: seq<Byte>)

  /** The outcome of one part: skipped by a `continue`, uploaded, or an exception that ends the run. */
  datatype Effect = Skipped | Uploaded(upload: Upload) | Raised

  /** One part's attachment fetch, if it makes one, and its outcome. */
  datatype Step = Step(fetch: Option<AttachmentKey>, effect: Effect)

  /** Decode the encoded bytes, read the profile, and upload under its address. */
  function Deliver(box: Mailbox, filename: string, encoded: string): (e: Effect)
    ensures e.Uploaded? <==> Decode(encoded).Some? && box.profile.Some?
    ensures e.Uploaded? ==> e.upload == Upload(box.profile.value, filename, Decode(encoded).value)
    ensures !e.Skipped?
  {
    match Decode(encoded)
    case None => Raised
    case Some(bytes) =>
      if box.profile.None? then Raised
      else Uploaded(Upload(box.profile.value, filename, bytes))
  }

  /** What the loop body does with part `p` of message `messageId`. */
  function PartStep(box: Mailbox, messageId: string, p: Part): (s: Step)
    ensures !Selected(p) ==> s == Step(None, Skipped)
    ensures s.effect.Skipped? <==> !Eligible(Candidate(messageId, p))
    ensures s.fetch.Some? <==> Selected(p) && p.body.data.None? && p.body.attachmentId.Some?
    ensures s.fetch.Some? ==> s.fetch.value == AttachmentKey(messageId, p.body.attachmentId.value)
    ensures s.effect.Uploaded? ==> s.effect.upload.filename == p.filename.value
    ensures s.effect.Uploaded? ==> box.profile == Some(s.effect.upload.owner)
  {
    if p.filename.None? || p.filename.value == "" then Step(None, Skipped)
    else if !AllowedName(p.filename.value) then Step(None, Skipped)
    else if p.body.data.Some? then Step(None, Deliver(box, p.filename.value, p.body.data.value))
    else if p.body.attachmentId.Some? then
      var key := AttachmentKey(messageId, p.body.attachmentId.value);
      Step(Some(key), if key in box.attachments then Deliver(box, p.filename.value, box.attachments[key]) else Raised)
    else Step(None, Skipped)
  }

  function StepsOf(box: Mailbox, cs: seq<Candidate>): (steps: seq<Step>)
    ensures |steps| == |cs|
  {
    seq(|cs|, k requires 0 <= k < |cs| => PartStep(box, cs[k].messageId, cs[k].part))
  }

  // ---------------------------------------------------------------------------
  // What a whole run does

  /** The attachment fetches made, the uploads made, and whether the run ended without an exception. */
  datatype Run = Run(fetches: seq<AttachmentKey>, uploads: seq<Upload>, completed: bool)

  function FetchesOf(s: Step): seq<AttachmentKey>
  {
    if s.fetch.Some? then [s.fetch.value] else []
  }

  function UploadsOf(s: Step): seq<Upload>
  {
    if s.effect.Uploaded? then [s.effect.upload] else []
  }

  /** What the loop does for listed id `id`: the steps of its parts, or a get call that raises. */
  function MessageSteps(box: Mailbox, id: string): seq<Step>
  {
    if id in box.messages then StepsOf(box, Tagged(id, box.messages[id])) else [Step(None, Raised)]
  }

  /** The steps of the listed ids, in order. */
  function AllSteps(box: Mailbox, ids: seq<string>): seq<Step>
  {
    if ids == [] then []
    else AllSteps(box, ids[..|ids| - 1]) + MessageSteps(box, ids[|ids| - 1])
  }

  /** Runs the steps in order up to and including the first that raises. */
  function Performed(steps: seq<Step>): Run
  {
    if steps == [] then Run([], [], true)
    else if steps[0].effect.Raised? then Run(FetchesOf(steps[0]), [], false)
    else
      var r := Performed(steps[1..]);
      Run(FetchesOf(steps[0]) + r.fetches, UploadsOf(steps[0]) + r.uploads, r.completed)
  }

  /** The run of one sequence of steps followed by another: the second starts only if the first completed. */
  function Then(first: Run, second: Run): Run
  {
    if !first.completed then first
    else Run(first.fetches + second.fetches, first.uploads + second.uploads, second.completed)
  }

  /** The effect of `check_and_download_attachments` on one mailbox. */
  function Sync(box: Mailbox): Run
  {
    if box.listed.None? then Run([], [], false)
    else Performed(AllSteps(box, box.listed.value))
  }

  /** The objects the uploads write, the first of them as the `start`-th object of the bucket. */
  function Stored(uploads: seq<Upload>, clock: Clock, start: nat): (objs: seq<StoredObject>)
    ensures |objs| == |uploads|
  {
    seq(|uploads|, i requires 0 <= i < |uploads| =>
      StoredObject(ObjectPath(uploads[i].owner, clock(start + i), uploads[i].filename), uploads[i].data))
  }

  lemma StoredSingle(u: Upload, clock: Clock, start: nat)
    ensures Stored([u], clock, start) == [StoredObject(ObjectPath(u.owner, clock(start), u.filename), u.data)]
  {
  }

  lemma StoredAppend(a: seq<Upload>, b: seq<Upload>, clock: Clock, start: nat)
    ensures Stored(a + b, clock, start) == Stored(a, clock, start) + Stored(b, clock, start + |a|)
  {
    var l, r := Stored(a + b, clock, start), Stored(a, clock, start) + Stored(b, clock, start + |a|);
    forall i | 0 <= i < |l| ensures l[i] == r[i] {
      if i >= |a| {
        assert (a + b)[i] == b[i - |a|];
      }
    }
  }

  /** A bucket that holds the objects of uploads `a` and then receives those of `b` holds those of `a + b`. */
  lemma BucketGrows(prior: seq<StoredObject>, objs: seq<StoredObject>, grown: seq<StoredObject>,
                    a: seq<Upload>, b: seq<Upload>, clock: Clock)
    requires objs == prior + Stored(a, clock, |prior|)
    requires grown == objs + Stored(b, clock, |objs|)
    ensures grown == prior + Stored(a + b, clock, |prior|)
  {
    StoredAppend(a, b, clock, |prior|);
  }

  // ---------------------------------------------------------------------------
  // Structural lemmas

  lemma {:induction false} AllStepsAppend(box: Mailbox, a: seq<string>, b: seq<string>)
    ensures AllSteps(box, a + b) == AllSteps(box, a) + AllSteps(box, b)
    decreases |b|
  {
    if b == [] {
      assert a + b == a;
    } else {
      var n := |b| - 1;
      var ab := a + b;
      assert ab[..|ab| - 1] == a + b[..n];
      assert ab[|ab| - 1] == b[n];
      AllStepsAppend(box, a, b[..n]);
      StepsAssociate(AllSteps(box, a), AllSteps(box, b[..n]), MessageSteps(box, b[n]));
    }
  }

  /** Concatenation of step sequences is associative; stated apart so the solver meets it in a small context. */
  lemma StepsAssociate(x: seq<Step>, y: seq<Step>, z: seq<Step>)
    ensures (x + y) + z == x + (y + z)
  {
  }

  lemma StepsOfAppend(box: Mailbox, a: seq<Candidate>, b: seq<Candidate>)
    ensures StepsOf(box, a + b) == StepsOf(box, a) + StepsOf(box, b)
  {
    var l, r := StepsOf(box, a + b), StepsOf(box, a) + StepsOf(box, b);
    forall k | 0 <= k < |l| ensures l[k] == r[k] {
      if k >= |a| {
        assert (a + b)[k] == b[k - |a|];
      }
    }
  }

  lemma {:induction false} PerformedAppend(a: seq<Step>, b: seq<Step>)
    ensures Performed(a + b) == Then(Performed(a), Performed(b))
    decreases |a|
  {
    if a == [] {
      assert a + b == b;
      var rb := Performed(b);
      assert [] + rb.fetches == rb.fetches && [] + rb.uploads == rb.uploads;
    } else {
      var s := a[0];
      assert (a + b)[0] == s;
      assert (a + b)[1..] == a[1..] + b;
      if !s.effect.Raised? {
        PerformedAppend(a[1..], b);
        var ra, rb := Performed(a[1..]), Performed(b);
        if ra.completed {
          assert Performed(a + b) == Run(FetchesOf(s) + (ra.fetches + rb.fetches),
                                         UploadsOf(s) + (ra.uploads + rb.uploads), rb.completed);
          assert FetchesOf(s) + (ra.fetches + rb.fetches) == (FetchesOf(s) + ra.fetches) + rb.fetches;
          assert UploadsOf(s) + (ra.uploads + rb.uploads) == (UploadsOf(s) + ra.uploads) + rb.uploads;
        }
      }
    }
  }

  lemma PerformedSnoc(steps: seq<Step>, s: Step)
    ensures Performed(steps + [s])
         == if !Performed(steps).completed then Performed(steps)
            else Run(Performed(steps).fetches + FetchesOf(s), Performed(steps).uploads + UploadsOf(s), !s.effect.Raised?)
  {
    PerformedAppend(steps, [s]);
    assert [s][1..] == [];
    if !s.effect.Raised? {
      assert Performed([s]) == Run(FetchesOf(s) + [], UploadsOf(s) + [], true);
      assert FetchesOf(s) + [] == FetchesOf(s) && UploadsOf(s) + [] == UploadsOf(s);
    }
  }

  /** Once a step raises, nothing after it happens. */
  lemma PerformedHalts(steps: seq<Step>, rest: seq<Step>)
    requires !Performed(steps).completed
    ensures Performed(steps + rest) == Performed(steps)
  {
    PerformedAppend(steps, rest);
  }

  lemma AllStepsSnoc(box: Mailbox, ids: seq<string>, i: nat)
    requires i < |ids|
    ensures AllSteps(box, ids[..i + 1]) == AllSteps(box, ids[..i]) + MessageSteps(box, ids[i])
  {
    var p := ids[..i + 1];
    assert p[..|p| - 1] == ids[..i];
    assert p[|p| - 1] == ids[i];
  }

  /** A run that raises within a prefix of the steps ends there. */
  lemma HaltsWithin(steps: seq<Step>, k: nat)
    requires k <= |steps| && !Performed(steps[..k]).completed
    ensures Performed(steps) == Performed(steps[..k])
  {
    assert steps == steps[..k] + steps[k..];
    PerformedHalts(steps[..k], steps[k..]);
  }

  // ---------------------------------------------------------------------------
  // The ingestion loop

  /**
   * The body of the inner loop for one part: the attachment fetch it makes,
   * whether it raises, and the object it uploads.
   */
  method IngestPart(box: Mailbox, clock: Clock, bucket: Bucket, messageId: string, part: Part)
    returns (fetch: Option<AttachmentKey>, raised: bool)
    modifies bucket
    ensures fetch == PartStep(box, messageId, part).fetch
    ensures raised == PartStep(box, messageId, part).effect.Raised?
    ensures bucket.objects == old(bucket.objects)
      + Stored(UploadsOf(PartStep(box, messageId, part)), clock, |old(bucket.objects)|)
  {
    fetch, raised := None, false;
    var filename := part.filename;
    if filename.None? || filename.value == "" {
      return;
    }
    var name := filename.value;
    if !(EndsWith(name, ".xls") || EndsWith(name, ".xlsx") || EndsWith(name, ".csv")) {
      return;
    }
    var encoded: string;
    if part.body.data.Some? {
      encoded := part.body.data.value;
    } else if part.body.attachmentId.Some? {
      var key := AttachmentKey(messageId, part.body.attachmentId.value);
      fetch := Some(key);
      if key !in box.attachments {
        return fetch, true;
      }
      encoded := box.attachments[key];
    } else {
      return;
    }
    var fileData := Decode(encoded);
    if fileData.None? {
      return fetch, true;
    }
    if box.profile.None? {
      return fetch, true;
    }
    var emailAddress := box.profile.value;
    bucket.Upload(emailAddress, clock(|bucket.objects|), name, fileData.value);
    StoredSingle(Upload(emailAddress, name, fileData.value), clock, |old(bucket.objects)|);
  }

  /** One more part: its step follows the steps of the parts before it. */
  lemma PerformedNextPart(box: Mailbox, id: string, msg: Message, j: nat)
    requires j < |TopParts(msg)|
    ensures var before, step := Performed(StepsOf(box, Tagged(id, msg)[..j])), PartStep(box, id, TopParts(msg)[j]);
      before.completed ==>
        Performed(StepsOf(box, Tagged(id, msg)[..j + 1]))
        == Run(before.fetches + FetchesOf(step), before.uploads + UploadsOf(step), !step.effect.Raised?)
  {
    var tagged, step := Tagged(id, msg), PartStep(box, id, TopParts(msg)[j]);
    TaggedPrefix(id, msg, j);
    StepsOfAppend(box, tagged[..j], [Candidate(id, TopParts(msg)[j])]);
    assert StepsOf(box, tagged[..j + 1]) == StepsOf(box, tagged[..j]) + [step];
    PerformedSnoc(StepsOf(box, tagged[..j]), step);
  }

  /** A part that raises ends the message's run. */
  lemma PartsHalt(box: Mailbox, id: string, msg: Message, j: nat)
    requires j <= |TopParts(msg)| && !Performed(StepsOf(box, Tagged(id, msg)[..j])).completed
    ensures Performed(StepsOf(box, Tagged(id, msg))) == Performed(StepsOf(box, Tagged(id, msg)[..j]))
  {
    StepsOfPrefix(box, Tagged(id, msg), j);
    HaltsWithin(StepsOf(box, Tagged(id, msg)), j);
  }

  /** The inner loop over the top-level parts of message `msg`, listed under `id`. */
  method IngestParts(box: Mailbox, clock: Clock, bucket: Bucket, id: string, msg: Message)
    returns (fetched: seq<AttachmentKey>, completed: bool)
    modifies bucket
    ensures fetched == Performed(StepsOf(box, Tagged(id, msg))).fetches
    ensures completed == Performed(StepsOf(box, Tagged(id, msg))).completed
    ensures bucket.objects == old(bucket.objects)
      + Stored(Performed(StepsOf(box, Tagged(id, msg))).uploads, clock, |old(bucket.objects)|)
  {
    var parts := if msg.payload.Some? && msg.payload.value.parts.Some? then msg.payload.value.parts.value else [];
    assert parts == TopParts(msg);
    ghost var tagged := Tagged(id, msg);
    ghost var uploads: seq<Upload> := [];
    fetched := [];
    assert StepsOf(box, tagged[..0]) == [];
    var j := 0;
    while j < |parts|
      invariant 0 <= j <= |parts|
      invariant Performed(StepsOf(box, tagged[..j])) == Run(fetched, uploads, true)
      invariant bucket.objects == old(bucket.objects) + Stored(uploads, clock, |old(bucket.objects)|)
    {
      ghost var step := PartStep(box, id, parts[j]);
      ghost var objs := bucket.objects;
      PerformedNextPart(box, id, msg, j);

      var fetch, raised := IngestPart(box, clock, bucket, id, parts[j]);
      BucketGrows(old(bucket.objects), objs, bucket.objects, uploads, UploadsOf(step), clock);
      fetched := fetched + (if fetch.Some? then [fetch.value] else []);
      uploads := uploads + UploadsOf(step);
      j := j + 1;
      if raised {
        PartsHalt(box, id, msg, j);
        return fetched, false;
      }
    }
    assert tagged[..j] == tagged;
    completed := true;
  }

  /** One listed id: the get call, which raises for an id the mailbox does not hold, then the parts. */
  method IngestMessage(box: Mailbox, clock: Clock, bucket: Bucket, id: string)
    returns (fetched: seq<AttachmentKey>, completed: bool)
    modifies bucket
    ensures fetched == Performed(MessageSteps(box, id)).fetches
    ensures completed == Performed(MessageSteps(box, id)).completed
    ensures bucket.objects == old(bucket.objects)
      + Stored(Performed(MessageSteps(box, id)).uploads, clock, |old(bucket.objects)|)
  {
    if id !in box.messages {
      assert Performed(MessageSteps(box, id)) == Run([], [], false);
      assert Stored([], clock, |bucket.objects|) == [];
      return [], false;
    }
    fetched, completed := IngestParts(box, clock, bucket, id, box.messages[id]);
  }

  lemma StepsOfPrefix(box: Mailbox, cs: seq<Candidate>, k: nat)
    requires k <= |cs|
    ensures StepsOf(box, cs)[..k] == StepsOf(box, cs[..k])
  {
  }

  /** A run that raises within the first i listed ids ends there. */
  lemma AbortAfter(box: Mailbox, ids: seq<string>, i: nat)
    requires i <= |ids| && !Performed(AllSteps(box, ids[..i])).completed
    ensures Performed(AllSteps(box, ids)) == Performed(AllSteps(box, ids[..i]))
  {
    assert ids == ids[..i] + ids[i..];
    AllStepsAppend(box, ids[..i], ids[i..]);
    PerformedHalts(AllSteps(box, ids[..i]), AllSteps(box, ids[i..]));
  }

  /** One more listed id: its run follows the run of the ids before it. */
  lemma PerformedNextMessage(box: Mailbox, ids: seq<string>, i: nat)
    requires i < |ids|
    ensures Performed(AllSteps(box, ids[..i + 1]))
         == Then(Performed(AllSteps(box, ids[..i])), Performed(MessageSteps(box, ids[i])))
  {
    AllStepsSnoc(box, ids, i);
    PerformedAppend(AllSteps(box, ids[..i]), MessageSteps(box, ids[i]));
  }

  /** The outer loop of `check_and_download_attachments` over the listed ids. */
  method IngestMessages(box: Mailbox, clock: Clock, bucket: Bucket, ids: seq<string>)
    returns (fetched: seq<AttachmentKey>, completed: bool)
    modifies bucket
    ensures fetched == Performed(AllSteps(box, ids)).fetches
    ensures completed == Performed(AllSteps(box, ids)).completed
    ensures bucket.objects == old(bucket.objects)
      + Stored(Performed(AllSteps(box, ids)).uploads, clock, |old(bucket.objects)|)
  {
    ghost var uploads: seq<Upload> := [];
    fetched := [];
    assert ids[..0] == [];
    var i := 0;
    while i < |ids|
      invariant 0 <= i <= |ids|
      invariant Performed(AllSteps(box, ids[..i])) == Run(fetched, uploads, true)
      invariant bucket.objects == old(bucket.objects) + Stored(uploads, clock, |old(bucket.objects)|)
    {
      ghost var run := Performed(MessageSteps(box, ids[i]));
      ghost var objs := bucket.objects;
      PerformedNextMessage(box, ids, i);

      var more, done := IngestMessage(box, clock, bucket, ids[i]);
      BucketGrows(old(bucket.objects), objs, bucket.objects, uploads, run.uploads, clock);
      fetched := fetched + more;
      uploads := uploads + run.uploads;
      i := i + 1;
      if !done {
        AbortAfter(box, ids, i);
        return fetched, false;
      }
    }
    assert ids[..i] == ids;
    completed := true;
  }

  /** `check_and_download_attachments`: the fetches it makes, whether it ends without an exception, and its uploads. */
  method CheckAndDownloadAttachments(box: Mailbox, clock: Clock, bucket: Bucket)
    returns (fetched: seq<AttachmentKey>, completed: bool)
    modifies bucket
    ensures fetched == Sync(box).fetches && completed == Sync(box).completed
    ensures bucket.objects == old(bucket.objects) + Stored(Sync(box).uploads, clock, |old(bucket.objects)|)
  {
    if box.listed.None? {
      assert Stored([], clock, |bucket.objects|) == [];
      return [], false;
    }
    fetched, completed := IngestMessages(box, clock, bucket, box.listed.value);
  }

  // ---------------------------------------------------------------------------
  // Properties of a run

  /** A run ends without an exception exactly when none of its steps raises. */
  lemma {:induction false} PerformedCompleted(steps: seq<Step>)
    ensures Performed(steps).completed <==> forall k :: 0 <= k < |steps| ==> !steps[k].effect.Raised?
    decreases |steps|
  {
    if steps != [] {
      PerformedCompleted(steps[1..]);
      if !steps[0].effect.Raised? {
        assert forall k :: 0 < k < |steps| ==> steps[k] == steps[1..][k - 1];
      }
    }
  }

  /** What every upload satisfies: a non-empty filename with an allowed extension, owned by the profile's address. */
  predicate Proper(box: Mailbox, u: Upload)
  {
    u.filename != "" && AllowedName(u.filename) && box.profile == Some(u.owner)
  }

  predicate StepProper(box: Mailbox, s: Step)
  {
    s.effect.Uploaded? ==> Proper(box, s.effect.upload)
  }

  lemma {:induction false} PerformedUploadsProper(box: Mailbox, steps: seq<Step>)
    requires forall k :: 0 <= k < |steps| ==> StepProper(box, steps[k])
    ensures forall u :: u in Performed(steps).uploads ==> Proper(box, u)
    decreases |steps|
  {
    if steps != [] && !steps[0].effect.Raised? {
      assert forall k :: 0 < k < |steps| ==> steps[k] == steps[1..][k - 1];
      PerformedUploadsProper(box, steps[1..]);
    }
  }

  lemma {:induction false} AllStepsProper(box: Mailbox, ids: seq<string>)
    ensures forall k :: 0 <= k < |AllSteps(box, ids)| ==> StepProper(box, AllSteps(box, ids)[k])
    decreases |ids|
  {
    if ids != [] {
      var front, last := AllSteps(box, ids[..|ids| - 1]), MessageSteps(box, ids[|ids| - 1]);
      AllStepsProper(box, ids[..|ids| - 1]);
      forall k | 0 <= k < |last| ensures StepProper(box, last[k]) {
      }
      forall k | 0 <= k < |front + last| ensures StepProper(box, (front + last)[k]) {
        if k >= |front| {
          assert (front + last)[k] == last[k - |front|];
        }
      }
    }
  }

  /**
   * Only selected parts are uploaded: every upload of a run has a non-empty,
   * case-sensitively allowed filename and is owned by the profile's address.
   */
  lemma SyncUploadsAreProper(box: Mailbox)
    ensures forall u :: u in Sync(box).uploads ==> Proper(box, u)
  {
    if box.listed.Some? {
      AllStepsProper(box, box.listed.value);
      PerformedUploadsProper(box, AllSteps(box, box.listed.value));
    }
  }

  /** The extension test is case-sensitive: a part named "A.CSV" is skipped. */
  lemma UppercaseExtensionSkipped(box: Mailbox, id: string, body: Body, children: seq<Part>)
    ensures PartStep(box, id, Part(Some("A.CSV"), body, children)) == Step(None, Skipped)
  {
    var name := "A.CSV";
    assert name[|name| - 4..] != ".csv" by { assert name[|name| - 4..][1] == 'C'; }
    assert name[|name| - 4..] != ".xls" by { assert name[|name| - 4..][1] == 'C'; }
    assert name[|name| - 5..] != ".xlsx" by { assert name[|name| - 5..][2] == 'C'; }
  }

  /** A selected part whose inline data is the encoding of some bytes uploads exactly those bytes, without a fetch. */
  lemma UploadCarriesOriginalBytes(box: Mailbox, id: string, p: Part, bytes: seq<Byte>)
    requires Selected(p) && p.body.data == Some(Encode(bytes)) && box.profile.Some?
    ensures PartStep(box, id, p) == Step(None, Uploaded(Upload(box.profile.value, p.filename.value, bytes)))
  {
    DecodeEncode(bytes);
  }

  /** Inline data and the same data fetched as an attachment have the same effect. */
  lemma InlineAndFetchedAgree(box: Mailbox, id: string, filename: Option<string>, data: string,
                              attachmentId: string, children1: seq<Part>, children2: seq<Part>)
    requires AttachmentKey(id, attachmentId) in box.attachments
    requires box.attachments[AttachmentKey(id, attachmentId)] == data
    ensures PartStep(box, id, Part(filename, Body(Some(data), None), children1)).effect
         == PartStep(box, id, Part(filename, Body(None, Some(attachmentId)), children2)).effect
  {
  }

  /** A listed message without a payload or without parts contributes no step. */
  lemma PartlessMessageIsSkipped(box: Mailbox, id: string)
    requires id in box.messages
    requires box.messages[id].payload.None? || box.messages[id].payload.value.parts.None?
    ensures MessageSteps(box, id) == []
  {
  }

  // ---------------------------------------------------------------------------
  // Nested parts are never visited

  function Shallow(p: Part): Part
  {
    Part(p.filename, p.body, [])
  }

  /** The message with the child parts of its top-level parts removed. */
  function Flatten(m: Message): (f: Message)
    ensures |TopParts(f)| == |TopParts(m)|
  {
    if m.payload.Some? && m.payload.value.parts.Some? then
      var ps := m.payload.value.parts.value;
      Message(Some(Payload(Some(seq(|ps|, j requires 0 <= j < |ps| => Shallow(ps[j]))))))
    else m
  }

  function StripNested(box: Mailbox): Mailbox
  {
    box.(messages := map id | id in box.messages :: Flatten(box.messages[id]))
  }

  lemma MessageStepsIgnoreNested(box: Mailbox, id: string)
    ensures MessageSteps(StripNested(box), id) == MessageSteps(box, id)
  {
    var flat := StripNested(box);
    if id in box.messages {
      var m := box.messages[id];
      var l, r := MessageSteps(flat, id), MessageSteps(box, id);
      forall j | 0 <= j < |r| ensures l[j] == r[j] {
        assert TopParts(flat.messages[id])[j] == Shallow(TopParts(m)[j]);
      }
    }
  }

  lemma {:induction false} AllStepsIgnoreNested(box: Mailbox, ids: seq<string>)
    ensures AllSteps(StripNested(box), ids) == AllSteps(box, ids)
    decreases |ids|
  {
    if ids != [] {
      AllStepsIgnoreNested(box, ids[..|ids| - 1]);
      MessageStepsIgnoreNested(box, ids[|ids| - 1]);
    }
  }

  /** Only top-level parts are looked at: removing every nested part changes nothing. */
  lemma NestedPartsNeverVisited(box: Mailbox)
    ensures Sync(StripNested(box)) == Sync(box)
  {
    if box.listed.Some? {
      AllStepsIgnoreNested(box, box.listed.value);
    }
  }

  // ---------------------------------------------------------------------------
  // A run that completes uploads every eligible part

  /** The eligible parts, in order; a part listed twice stays twice. */
  function Eligibles(cs: seq<Candidate>): (es: seq<Candidate>)
    ensures |es| <= |cs|
  {
    if cs == [] then []
    else (if Eligible(cs[0]) then [cs[0]] else []) + Eligibles(cs[1..])
  }

  /** The encoded bytes of a part: its inline data, or else what its attachment fetch returns. */
  function EncodedOf(box: Mailbox, c: Candidate): Option<string>
  {
    if c.part.body.data.Some? then c.part.body.data
    else if c.part.body.attachmentId.Some? && AttachmentKey(c.messageId, c.part.body.attachmentId.value) in box.attachments
    then Some(box.attachments[AttachmentKey(c.messageId, c.part.body.attachmentId.value)])
    else None
  }

  /** Upload `u` is part `c` delivered: its filename, its decoded bytes, under the profile's address. */
  predicate Delivered(box: Mailbox, c: Candidate, u: Upload)
  {
    box.profile == Some(u.owner) && c.part.filename == Some(u.filename)
    && EncodedOf(box, c).Some? && Decode(EncodedOf(box, c).value) == Some(u.data)
  }

  /** Each upload is the delivery of the eligible part in the same position. */
  predicate DeliversAll(box: Mailbox, es: seq<Candidate>, ups: seq<Upload>)
  {
    |ups| == |es| && forall j :: 0 <= j < |es| ==> Delivered(box, es[j], ups[j])
  }

  lemma DeliversCons(box: Mailbox, c: Candidate, u: Upload, es: seq<Candidate>, ups: seq<Upload>)
    requires Delivered(box, c, u) && DeliversAll(box, es, ups)
    ensures DeliversAll(box, [c] + es, [u] + ups)
  {
    forall j | 0 < j <= |es| ensures Delivered(box, ([c] + es)[j], ([u] + ups)[j]) {
      assert ([c] + es)[j] == es[j - 1] && ([u] + ups)[j] == ups[j - 1];
    }
  }

  /** A part that does not raise uploads exactly when it is eligible, and then it delivers that part. */
  lemma StepDelivers(box: Mailbox, c: Candidate)
    requires !PartStep(box, c.messageId, c.part).effect.Raised?
    ensures Eligible(c) ==>
      PartStep(box, c.messageId, c.part).effect.Uploaded? && Delivered(box, c, PartStep(box, c.messageId, c.part).effect.upload)
    ensures !Eligible(c) ==> UploadsOf(PartStep(box, c.messageId, c.part)) == []
  {
  }

  lemma StepsOfCons(box: Mailbox, cs: seq<Candidate>)
    requires cs != []
    ensures StepsOf(box, cs) == [PartStep(box, cs[0].messageId, cs[0].part)] + StepsOf(box, cs[1..])
  {
    assert cs == [cs[0]] + cs[1..];
    StepsOfAppend(box, [cs[0]], cs[1..]);
  }

  lemma {:induction false} CompletedUploadsEligible(box: Mailbox, cs: seq<Candidate>)
    requires Performed(StepsOf(box, cs)).completed
    ensures DeliversAll(box, Eligibles(cs), Performed(StepsOf(box, cs)).uploads)
    decreases |cs|
  {
    if cs != [] {
      var first := PartStep(box, cs[0].messageId, cs[0].part);
      StepsOfCons(box, cs);
      var steps, tail := StepsOf(box, cs), StepsOf(box, cs[1..]);
      assert steps[0] == first && steps[1..] == tail;
      assert Performed(steps).uploads == UploadsOf(first) + Performed(tail).uploads;
      CompletedUploadsEligible(box, cs[1..]);
      StepDelivers(box, cs[0]);
      if Eligible(cs[0]) {
        DeliversCons(box, cs[0], first.effect.upload, Eligibles(cs[1..]), Performed(tail).uploads);
      } else {
        assert [] + Performed(tail).uploads == Performed(tail).uploads;
      }
    }
  }

  /** The steps of listed ids that the get call all returns are the steps of their candidate parts. */
  lemma {:induction false} AllStepsOfFetched(box: Mailbox, ids: seq<string>)
    requires forall i :: 0 <= i < |ids| ==> ids[i] in box.messages
    ensures AllSteps(box, ids) == StepsOf(box, Candidates(box, ids))
    decreases |ids|
  {
    if ids != [] {
      var front, id := ids[..|ids| - 1], ids[|ids| - 1];
      AllStepsOfFetched(box, front);
      StepsOfAppend(box, Candidates(box, front), Tagged(id, box.messages[id]));
    }
  }

  /** A listed id the get call does not return stops the run. */
  lemma MissingHalts(box: Mailbox, ids: seq<string>, i: nat)
    requires i < |ids|
    ensures ids[i] !in box.messages ==> !Performed(AllSteps(box, ids)).completed
  {
    if ids[i] !in box.messages {
      PerformedNextMessage(box, ids, i);
      AbortAfter(box, ids, i + 1);
    }
  }

  /** A run completes only if the get call returned every listed id. */
  lemma CompletedAllFetched(box: Mailbox, ids: seq<string>)
    requires Performed(AllSteps(box, ids)).completed
    ensures forall i :: 0 <= i < |ids| ==> ids[i] in box.messages
  {
    forall i | 0 <= i < |ids| ensures ids[i] in box.messages {
      MissingHalts(box, ids, i);
    }
  }

  /**
   * A run completes exactly when the list call, every get call and every
   * visited part succeed.
   */
  lemma SyncCompleted(box: Mailbox)
    ensures Sync(box).completed <==>
      box.listed.Some?
      && (forall i :: 0 <= i < |box.listed.value| ==> box.listed.value[i] in box.messages)
      && (forall c :: c in Candidates(box, box.listed.value) ==> !PartStep(box, c.messageId, c.part).effect.Raised?)
  {
    if box.listed.Some? {
      var ids := box.listed.value;
      if Sync(box).completed {
        CompletedAllFetched(box, ids);
      }
      if forall i :: 0 <= i < |ids| ==> ids[i] in box.messages {
        var cs := Candidates(box, ids);
        var steps := StepsOf(box, cs);
        AllStepsOfFetched(box, ids);
        PerformedCompleted(steps);
        assert forall k :: 0 <= k < |cs| ==> steps[k] == PartStep(box, cs[k].messageId, cs[k].part);
        if Sync(box).completed {
          forall c | c in cs ensures !PartStep(box, c.messageId, c.part).effect.Raised? {
            var k :| 0 <= k < |cs| && cs[k] == c;
          }
        }
      }
    }
  }

  /**
   * A run that completes uploads every eligible top-level part, in listing
   * order, once per occurrence, with its filename and decoded bytes.
   */
  lemma CompletedSyncUploadsEveryEligible(box: Mailbox)
    requires Sync(box).completed
    ensures box.listed.Some?
    ensures DeliversAll(box, Eligibles(Candidates(box, box.listed.value)), Sync(box).uploads)
  {
    var ids := box.listed.value;
    CompletedAllFetched(box, ids);
    AllStepsOfFetched(box, ids);
    CompletedUploadsEligible(box, Candidates(box, ids));
  }
}
