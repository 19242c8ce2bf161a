/**
 * The access gate: the web routes' decisions over the session's logged-in flag.
 * Each route answers with a redirect, a rendered page, an abort status or the
 * stream response, and login and logout are the only routes that change the
 * session.
 */
module Access {
  import opened Options
  import opened Mjpeg
  import opened Registry

  /** The per-client session, reduced to its logged-in flag. */
  datatype Session = Session(loggedIn: bool)

  const LOGGED_OUT: Session := Session(false)

  datatype Page = LoginPage | VideoPage

  /** What a route answers. */
  datatype Reply =
    | Redirect(target: Page)
    | Render(page: Page, error: Option<string>)
    | Abort(status: nat)
    | StreamResponse(id: string, mimetype: string)

  /** The submitted login form's two fields, each absent when not sent. */
  datatype Form = Form(email: Option<string>, password: Option<string>)

  /** The configured login and password, each absent when the variable is unset. */
  datatype Credentials = Credentials(login: Option<string>, password: Option<string>)

  /** The error shown on the login page after a rejected submission. */
  const BAD_CREDENTIALS: string := "Неверный логин или пароль"

  const UNAUTHORIZED: nat := 401
  const NOT_FOUND: nat := 404

  /** A request to one of the routes; the login route distinguishes its two methods. */
  datatype Request =
    | Index
    | ShowLogin
    | SubmitLogin(form: Form)
    | ShowVideo
    | Logout
    | StreamRequest(id: string)

  /**
   * The credential test: both submitted fields equal the configured values, absent
   * ones included. Exactly one form passes it, the one carrying the configured pair.
   */
  function Accepted(form: Form, creds: Credentials): (ok: bool)
    ensures ok <==> form == Form(creds.login, creds.password)
  {
    form.email == creds.login && form.password == creds.password
  }

  /** The root sends everyone to the video page. */
  function IndexRoute(s: Session): (r: (Session, Reply))
    ensures r.0 == s && r.1.Redirect? && r.1.target == VideoPage
  {
    (s, Redirect(VideoPage))
  }

  /**
   * The login route. A GET renders the form. A POST logs in and goes to the video
   * page exactly when the credentials are accepted; otherwise it renders the form
   * with the error and leaves the session alone.
   */
  function LoginRoute(s: Session, post: bool, form: Form, creds: Credentials): (r: (Session, Reply))
    ensures !post ==> r == (s, Render(LoginPage, None))
    ensures post ==> (r.1 == Redirect(VideoPage) <==> Accepted(form, creds))
    ensures post ==> (r.0.loggedIn <==> s.loggedIn || Accepted(form, creds))
    ensures post && !Accepted(form, creds) ==> r == (s, Render(LoginPage, Some(BAD_CREDENTIALS)))
  {
    if post then
      if Accepted(form, creds) then
        (Session(true), Redirect(VideoPage))
      else
        (s, Render(LoginPage, Some(BAD_CREDENTIALS)))
    else
      (s, Render(LoginPage, None))
  }

  /** The video page: rendered for a logged-in session, otherwise a redirect to the login page. */
  function VideoRoute(s: Session): (r: (Session, Reply))
    ensures r.0 == s
    ensures r.1 == Redirect(LoginPage) <==> !s.loggedIn
    ensures r.1 == Render(VideoPage, None) <==> s.loggedIn
  {
    if !s.loggedIn then (s, Redirect(LoginPage)) else (s, Render(VideoPage, None))
  }

  /** Logging out clears the flag, whatever it was, and goes to the login page. */
  function LogoutRoute(s: Session): (r: (Session, Reply))
    ensures !r.0.loggedIn && r.1 == Redirect(LoginPage)
  {
    (Session(false), Redirect(LoginPage))
  }

  /**
   * The stream route. The session is checked before the id: a logged-out client
   * gets 401 for any id, a logged-in one 404 for an unconfigured id, and only a
   * logged-in client asking for a configured id gets the multipart stream.
   */
  function StreamRoute(s: Session, id: string): (r: (Session, Reply))
    ensures r.0 == s
    ensures r.1 == Abort(UNAUTHORIZED) <==> !s.loggedIn
    ensures r.1 == Abort(NOT_FOUND) <==> s.loggedIn && id !in CONFIGURED_IDS
    ensures r.1.StreamResponse? <==> s.loggedIn && id in CONFIGURED_IDS
    ensures r.1.StreamResponse? ==> r.1 == StreamResponse(id, MIMETYPE)
  {
    if !s.loggedIn then (s, Abort(UNAUTHORIZED))
    else if id !in CONFIGURED_IDS then (s, Abort(NOT_FOUND))
    else (s, StreamResponse(id, MIMETYPE))
  }

  /**
   * The route table: each request goes to its route. Only the login and logout
   * routes touch the session, and a stream is only ever the reply to a stream
   * request for that id from a logged-in session.
   */
  function Handle(s: Session, req: Request, creds: Credentials): (r: (Session, Reply))
    ensures !req.SubmitLogin? && !req.Logout? ==> r.0 == s
    ensures r.1.StreamResponse? ==> req.StreamRequest? && s.loggedIn && r.1.id == req.id
  {
    match req
    case Index => IndexRoute(s)
    case ShowLogin => LoginRoute(s, false, Form(None, None), creds)
    case SubmitLogin(form) => LoginRoute(s, true, form, creds)
    case ShowVideo => VideoRoute(s)
    case Logout => LogoutRoute(s)
    case StreamRequest(id) => StreamRoute(s, id)
  }

  /** A submission the gate accepts. */
  predicate LogsIn(req: Request, creds: Credentials)
  {
    req.SubmitLogin? && Accepted(req.form, creds)
  }

  /** Only an accepted submission sets the flag, and only logout clears it. */
  lemma HandleSession(s: Session, req: Request, creds: Credentials)
    ensures Handle(s, req, creds).0.loggedIn <==> LogsIn(req, creds) || (s.loggedIn && !req.Logout?)
  {
  }

  /** One client's requests in order, from session `s`: the final session and every reply. */
  function Serve(s: Session, reqs: seq<Request>, creds: Credentials): (r: (Session, seq<Reply>))
    ensures |r.1| == |reqs|
    decreases |reqs|
  {
    if reqs == [] then (s, [])
    else
      var (before, replies) := Serve(s, reqs[..|reqs| - 1], creds);
      var (after, reply) := Handle(before, reqs[|reqs| - 1], creds);
      (after, replies + [reply])
  }

  /** Some accepted submission in `reqs` is followed by no logout. */
  ghost predicate LoginStands(reqs: seq<Request>, creds: Credentials)
  {
    exists j :: 0 <= j < |reqs| && LogsIn(reqs[j], creds) && forall k :: j < k < |reqs| ==> !reqs[k].Logout?
  }

  /** A fresh session ends up logged in exactly when some accepted login has not been logged out since. */
  lemma {:induction false} LoggedInIffLoginStands(reqs: seq<Request>, creds: Credentials)
    ensures Serve(LOGGED_OUT, reqs, creds).0.loggedIn <==> LoginStands(reqs, creds)
    decreases |reqs|
  {
    if reqs != [] {
      var n := |reqs| - 1;
      var init := reqs[..n];
      LoggedInIffLoginStands(init, creds);
      var before := Serve(LOGGED_OUT, init, creds).0;
      HandleSession(before, reqs[n], creds);
      if LogsIn(reqs[n], creds) {
        assert LoginStands(reqs, creds) by {
          assert LogsIn(reqs[n], creds);
        }
      } else if !reqs[n].Logout? {
        if LoginStands(init, creds) {
          var j :| 0 <= j < |init| && LogsIn(init[j], creds) && forall k :: j < k < |init| ==> !init[k].Logout?;
          assert LogsIn(reqs[j], creds) && forall k :: j < k < |reqs| ==> !reqs[k].Logout?;
        }
        if LoginStands(reqs, creds) {
          var j :| 0 <= j < |reqs| && LogsIn(reqs[j], creds) && forall k :: j < k < |reqs| ==> !reqs[k].Logout?;
          assert j < n;
          assert LogsIn(init[j], creds) && forall k :: j < k < |init| ==> !init[k].Logout?;
        }
      }
    }
  }

  /** The `k`-th reply is the one its route gives in the session left by the requests before it. */
  lemma {:induction false} ReplyAt(s: Session, reqs: seq<Request>, creds: Credentials, k: nat)
    requires k < |reqs|
    ensures Serve(s, reqs, creds).1[k] == Handle(Serve(s, reqs[..k], creds).0, reqs[k], creds).1
    decreases |reqs|
  {
    var n := |reqs| - 1;
    if k < n {
      ReplyAt(s, reqs[..n], creds, k);
      assert reqs[..n][..k] == reqs[..k];
    } else {
      assert reqs[..k] == reqs[..n];
    }
  }

  /**
   * Streams go only to clients that logged in: a stream reply to a fresh session
   * is preceded by an accepted login with no logout in between.
   */
  lemma StreamNeedsLogin(reqs: seq<Request>, creds: Credentials, k: nat)
    requires k < |reqs| && Serve(LOGGED_OUT, reqs, creds).1[k].StreamResponse?
    ensures reqs[k].StreamRequest? && reqs[k].id in CONFIGURED_IDS
    ensures LoginStands(reqs[..k], creds)
  {
    ReplyAt(LOGGED_OUT, reqs, creds, k);
    LoggedInIffLoginStands(reqs[..k], creds);
  }

  /** With neither credential configured, a submission that sends neither field is accepted. */
  lemma UnsetCredentialsAcceptEmptyForm(s: Session)
    ensures LoginRoute(s, true, Form(None, None), Credentials(None, None)) == (Session(true), Redirect(VideoPage))
  {
  }
}
