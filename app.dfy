/**
 * The control flow of app.py: the `oauth2callback` guard ladder, which
 * stores the user's credentials and signs them in only when every guard
 * passes; the `dashboard` gate on the session's e-mail address; and the
 * scheduled `job`, which runs the attachment ingestion once per stored
 * credential, in query order.
 *
 * The OAuth flow and the userinfo service are arguments (what the token fetch
 * returned, and what the userinfo call returns for given credentials), as are
 * the bucket's list call, the mailbox each credential opens, and the clock.
 */
module App {
  import opened Wrappers
  import opened Base64Url
  import opened Storage
  import opened Models
  import opened Gmail

  // ---------------------------------------------------------------------------
  // The OAuth callback

  /** What `flow.fetch_token` did: it raised, or it left `flow.credentials` (maybe None) with their `valid` flag. */
  datatype TokenOutcome = TokenRaised | TokenFetched(credentials: Option<Credentials>, valid: bool)

  /** What the userinfo call did: it raised, or it returned a body whose `email` key may be absent. */
  datatype InfoOutcome = InfoRaised | InfoFetched(email: Option<string>)

  /** A response: an error status, a redirect to an endpoint, or the rendered dashboard. */
  datatype Response = Error(status: nat) | RedirectTo(endpoint: string) | Page(email: string, files: seq<FileEntry>)

  /** How the callback ends: rejected with a status, or accepted for an address with credentials. */
  datatype Decision = Rejected(status: nat) | Accepted(email: string, credentials: Credentials)

  /** The guard ladder of `oauth2callback`, in the order the handler tries the guards. */
  function CallbackDecision(token: TokenOutcome, userinfo: Credentials -> InfoOutcome): (d: Decision)
    ensures d.Accepted? <==>
      && token.TokenFetched? && token.credentials.Some? && token.valid
      && userinfo(token.credentials.value).InfoFetched?
      && userinfo(token.credentials.value).email.Some?
      && userinfo(token.credentials.value).email.value != ""
    ensures d.Accepted? ==>
      d.credentials == token.credentials.value && Some(d.email) == userinfo(d.credentials).email
    ensures d.Rejected? ==> d.status == 400 || d.status == 401
  {
    if token.TokenRaised? then Rejected(400)
    else if token.credentials.None? || !token.valid then Rejected(401)
    else
      var info := userinfo(token.credentials.value);
      if info.InfoRaised? then Rejected(401)
      else if info.email.None? || info.email.value == "" then Rejected(400)
      else Accepted(info.email.value, token.credentials.value)
  }

  /** A failed token fetch is answered with 400, whatever the userinfo service would say. */
  lemma TokenFetchFailureIs400(userinfo: Credentials -> InfoOutcome)
    ensures CallbackDecision(TokenRaised, userinfo) == Rejected(400)
  {
  }

  /** Missing or invalid credentials are answered with 401. */
  lemma InvalidCredentialsAre401(c: Option<Credentials>, valid: bool, userinfo: Credentials -> InfoOutcome)
    requires c.None? || !valid
    ensures CallbackDecision(TokenFetched(c, valid), userinfo) == Rejected(401)
  {
  }

  /** Valid credentials whose userinfo call raises are answered with 401; one without an address with 400. */
  lemma UserinfoFailures(c: Credentials, userinfo: Credentials -> InfoOutcome)
    requires userinfo(c).InfoRaised? || userinfo(c) == InfoFetched(None) || userinfo(c) == InfoFetched(Some(""))
    ensures CallbackDecision(TokenFetched(Some(c), true), userinfo)
         == if userinfo(c).InfoRaised? then Rejected(401) else Rejected(400)
  {
  }

  // ---------------------------------------------------------------------------
  // The dashboard

  /** The dashboard for a session: the sign-in page without an address, else the listing of that address's files. */
  function DashboardView(session: map<string, string>, baseUrl: string, list: ListCall): (r: Response)
    ensures r.Page? <==> "email" in session
    ensures !r.Page? ==> r == RedirectTo("index")
    ensures r.Page? ==> r.email == session["email"] && r.files == ListedFiles(baseUrl, session["email"], list)
  {
    if "email" !in session then RedirectTo("index")
    else Page(session["email"], ListedFiles(baseUrl, session["email"], list))
  }

  // ---------------------------------------------------------------------------
  // The job

  /** The ingestion run of each user's mailbox, in query order. */
  function UserRuns(users: seq<Credentials>, mailboxOf: Credentials -> Mailbox): (runs: seq<Run>)
    ensures |runs| == |users|
  {
    seq(|users|, i requires 0 <= i < |users| => Sync(mailboxOf(users[i])))
  }

  /** The runs one after the other; the sweep stops at the first one that raises. */
  function Sweep(runs: seq<Run>): Run
  {
    if runs == [] then Run([], [], true)
    else Then(Sweep(runs[..|runs| - 1]), runs[|runs| - 1])
  }

  lemma SweepSnoc(runs: seq<Run>, i: nat)
    requires i < |runs|
    ensures Sweep(runs[..i + 1]) == Then(Sweep(runs[..i]), runs[i])
  {
    var p := runs[..i + 1];
    assert p[..|p| - 1] == runs[..i];
  }

  /** Once a run raises, the runs after it do not happen. */
  lemma {:induction false} SweepHalts(runs: seq<Run>, k: nat)
    requires k <= |runs| && !Sweep(runs[..k]).completed
    ensures Sweep(runs) == Sweep(runs[..k])
    decreases |runs|
  {
    if k < |runs| {
      var front := runs[..|runs| - 1];
      assert front[..k] == runs[..k];
      SweepHalts(front, k);
    } else {
      assert runs[..k] == runs;
    }
  }

  /** The sweep completes exactly when no run raises. */
  lemma {:induction false} SweepCompleted(runs: seq<Run>)
    ensures Sweep(runs).completed <==> forall i :: 0 <= i < |runs| ==> runs[i].completed
    decreases |runs|
  {
    if runs != [] {
      var front := runs[..|runs| - 1];
      SweepCompleted(front);
      assert forall i :: 0 <= i < |front| ==> front[i] == runs[i];
    }
  }

  /** A sweep whose i-th run raises: the runs before it all completed, and nothing after it happens. */
  lemma AbortedSweep(runs: seq<Run>, i: nat)
    requires 0 < i <= |runs| && Sweep(runs[..i - 1]).completed && !runs[i - 1].completed
    ensures Sweep(runs) == Sweep(runs[..i]) && !Sweep(runs).completed
    ensures forall j :: 0 <= j < i - 1 ==> runs[j].completed
  {
    SweepSnoc(runs, i - 1);
    SweepCompleted(runs[..i - 1]);
    assert forall j :: 0 <= j < i - 1 ==> runs[..i - 1][j] == runs[j];
    SweepHalts(runs, i);
  }

  lemma RunsOfSynced(users: seq<Credentials>, mailboxOf: Credentials -> Mailbox, synced: seq<Credentials>)
    requires |synced| <= |users| && synced == users[..|synced|]
    ensures forall j :: 0 <= j < |synced| ==> UserRuns(users, mailboxOf)[j] == Sync(mailboxOf(synced[j]))
  {
  }

  // ---------------------------------------------------------------------------
  // The server

  /** The application's state: the credential table, the bucket, and the signed-in browser's session. */
  class Server {
    var table: TokenTable
    var bucket: Bucket
    var session: map<string, string>

    ghost predicate Valid()
      reads this, table
    {
      table.Valid()
    }

    constructor ()
      ensures Valid() && fresh(table) && fresh(bucket)
      ensures table.rows == [] && bucket.objects == [] && session == map[]
    {
      table := new TokenTable();
      bucket := new Bucket();
      session := map[];
    }

    /**
     * `oauth2callback`: on a rejection, the status and no change; on
     * acceptance, the credentials saved under the address, the address put in
     * the session, and a redirect to the dashboard. `dbSucceeds` says whether
     * the save reaches the database; when it does not, `save_user_tokens`
     * raises, nothing catches it, and Flask answers 500 with neither the table
     * nor the session changed.
     */
    method OAuth2Callback(token: TokenOutcome, userinfo: Credentials -> InfoOutcome, dbSucceeds: bool) returns (r: Response)
      requires Valid()
      modifies this, table
      ensures Valid() && table == old(table) && bucket == old(bucket)
      ensures CallbackDecision(token, userinfo).Rejected? ==>
        && r == Error(CallbackDecision(token, userinfo).status)
        && table.rows == old(table.rows) && table.nextId == old(table.nextId)
        && session == old(session)
      ensures CallbackDecision(token, userinfo).Accepted? && !dbSucceeds ==>
        && r == Error(500)
        && table.rows == old(table.rows) && table.nextId == old(table.nextId)
        && session == old(session)
      ensures CallbackDecision(token, userinfo).Accepted? && dbSucceeds ==>
        && r == RedirectTo("dashboard")
        && Table(table.rows, table.nextId)
           == Upsert(old(Table(table.rows, table.nextId)), CallbackDecision(token, userinfo).email,
                     CallbackDecision(token, userinfo).credentials.json)
        && session == old(session)["email" := CallbackDecision(token, userinfo).email]
    {
      if token.TokenRaised? {
        return Error(400);
      }
      var credentials := token.credentials;
      if credentials.None? || !token.valid {
        return Error(401);
      }
      var info := userinfo(credentials.value);
      if info.InfoRaised? {
        return Error(401);
      }
      var email := info.email;
      if email.None? || email.value == "" {
        return Error(400);
      }
      var saved := table.SaveUserTokens(email.value, credentials.value, dbSucceeds);
      if !saved {
        return Error(500);
      }
      session := session["email" := email.value];
      return RedirectTo("dashboard");
    }

    /** `dashboard`: the session gate, then the listing of the session address's files. */
    method Dashboard(baseUrl: string, list: ListCall) returns (r: Response)
      ensures r == DashboardView(session, baseUrl, list)
    {
      if "email" !in session {
        return RedirectTo("index");
      }
      var email := session["email"];
      var files := ListUserFiles(baseUrl, email, list);
      return Page(email, files);
    }

    /**
     * `job`: load every stored credential (a row that cannot be loaded
     * raises before any ingestion), then sweep the users in query order.
     * `synced` lists the credentials the ingestion ran for.
     */
    method Job(loadable: string -> bool, mailboxOf: Credentials -> Mailbox, clock: Clock)
      returns (synced: seq<Credentials>, completed: bool)
      modifies bucket
      ensures LoadAll(table.rows, loadable).None? ==>
        synced == [] && !completed && bucket.objects == old(bucket.objects)
      ensures LoadAll(table.rows, loadable).Some? ==>
        var users := LoadAll(table.rows, loadable).value;
        && |synced| <= |users| && synced == users[..|synced|]
        && (forall j :: 0 <= j < |synced| - 1 ==> Sync(mailboxOf(synced[j])).completed)
        && (|synced| < |users| ==> |synced| > 0 && !Sync(mailboxOf(synced[|synced| - 1])).completed)
        && completed == Sweep(UserRuns(users, mailboxOf)).completed
        && bucket.objects == old(bucket.objects) + Stored(Sweep(UserRuns(users, mailboxOf)).uploads, clock, |old(bucket.objects)|)
    {
      var tokens := table.GetAllUserTokens(loadable);
      if tokens.None? {
        return [], false;
      }
      synced, completed := SweepUsers(tokens.value, mailboxOf, clock, bucket);
    }
  }

  /**
   * The loop of `job`: the ingestion for each user in order, stopping at the
   * first that raises. The users it ran for are a prefix of `users` in which
   * every ingestion but the last completed, and the last is the one that
   * raised when the prefix is shorter than `users`.
   */
  method SweepUsers(users: seq<Credentials>, mailboxOf: Credentials -> Mailbox, clock: Clock, bucket: Bucket)
    returns (synced: seq<Credentials>, completed: bool)
    modifies bucket
    ensures |synced| <= |users| && synced == users[..|synced|]
    ensures forall j :: 0 <= j < |synced| - 1 ==> Sync(mailboxOf(synced[j])).completed
    ensures |synced| < |users| ==> |synced| > 0 && !Sync(mailboxOf(synced[|synced| - 1])).completed
    ensures completed == Sweep(UserRuns(users, mailboxOf)).completed
    ensures bucket.objects == old(bucket.objects) + Stored(Sweep(UserRuns(users, mailboxOf)).uploads, clock, |old(bucket.objects)|)
  {
    ghost var runs := UserRuns(users, mailboxOf);
    ghost var fetches: seq<AttachmentKey> := [];
    ghost var uploads: seq<Upload> := [];
    synced := [];
    assert runs[..0] == [];
    var i := 0;
    while i < |users|
      invariant 0 <= i <= |users|
      invariant synced == users[..i]
      invariant Sweep(runs[..i]) == Run(fetches, uploads, true)
      invariant bucket.objects == old(bucket.objects) + Stored(uploads, clock, |old(bucket.objects)|)
    {
      ghost var run := runs[i];
      ghost var objs := bucket.objects;
      SweepSnoc(runs, i);

      var fetched, done := CheckAndDownloadAttachments(mailboxOf(users[i]), clock, bucket);
      BucketGrows(old(bucket.objects), objs, bucket.objects, uploads, run.uploads, clock);
      synced := synced + [users[i]];
      fetches := fetches + run.fetches;
      uploads := uploads + run.uploads;
      i := i + 1;
      assert synced == users[..i];
      if !done {
        AbortedSweep(runs, i);
        RunsOfSynced(users, mailboxOf, synced);
        return synced, false;
      }
    }
    assert runs[..i] == runs;
    RunsOfSynced(users, mailboxOf, synced);
    SweepCompleted(runs);
    completed := true;
  }

  /** After an accepted callback, the dashboard lists the files of the address that signed in. */
  lemma SignedInDashboard(session: map<string, string>, email: string, baseUrl: string, list: ListCall)
    ensures DashboardView(session["email" := email], baseUrl, list) == Page(email, ListedFiles(baseUrl, email, list))
  {
  }

  /**
   * A file uploaded for an address shows on that address's dashboard, last,
   * with the public URL of its object, when the list call reflects the bucket.
   */
  lemma UploadShownOnDashboard(session: map<string, string>, baseUrl: string, objects: seq<StoredObject>,
                               email: string, at: Instant, filename: string, data: seq<Byte>)
    requires '/' !in filename
    ensures var r := DashboardView(session["email" := email], baseUrl,
                                   BucketList(objects + [StoredObject(ObjectPath(email, at, filename), data)]));
      && r.Page? && r.email == email && r.files != []
      && r.files[|r.files| - 1] == FileEntry(ObjectName(at, filename), baseUrl + PublicPath + ObjectPath(email, at, filename))
  {
    var list := BucketList(objects + [StoredObject(ObjectPath(email, at, filename), data)]);
    UploadIsListedUnderItsPath(baseUrl, objects, email, at, filename, data);
    SignedInDashboard(session, email, baseUrl, list);
  }
}
