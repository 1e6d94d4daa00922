/** The admin page's decisions: the session gate, the playlist search, and
    the editor that submits either an update or a create. */
module Admin {
  import opened Basics
  import opened Strings
  import opened JsValues
  import opened Feed
  import opened Http
  import Login

  /** The answer to the session request, once it has arrived: whether the
      status is OK, and the parsed body, or a body that does not parse as
      JSON (an empty one). */
  datatype SessionReply = Reply(ok: bool, body: Json) | Unparsable(ok: bool)

  datatype Gate = Loading | Authorized(user: Json) | Redirect(path: string)

  /** The gate: an admin session is let in, any other session is sent home,
      and a failed request is sent to the login page. When an OK answer's
      body does not parse, reading it rejects and the check stops, so the
      page stays on "Loading…". */
  function CheckSession(reply: Option<SessionReply>): (g: Gate)
    ensures g.Loading? <==> reply.None? || (reply.value.Unparsable? && reply.value.ok)
    ensures g.Authorized? <==> reply.Some? && reply.value.Reply? && reply.value.ok && Truthy(Get(reply.value.body, "isAdmin"))
    ensures g.Authorized? ==> g.user == reply.value.body
    ensures g == Redirect("/login") <==> reply.Some? && !reply.value.ok
    ensures g == Redirect("/") <==>
              reply.Some? && reply.value.Reply? && reply.value.ok && !Truthy(Get(reply.value.body, "isAdmin"))
  {
    if reply.None? then Loading
    else if !reply.value.ok then Redirect("/login")
    else if reply.value.Unparsable? then Loading
    else
      var s := reply.value.body;
      if Truthy(s) && Truthy(Get(s, "isAdmin")) then Authorized(s) else Redirect("/")
  }

  /** The session user as the JSON object the server sends. */
  function SessionJson(u: SessionUser): Json
  {
    Obj([("_id", Str(u.id)), ("username", Str(u.username)), ("isAdmin", Bool(u.isAdmin))])
  }

  /** How an answer of the session endpoint reaches the page. `json(undefined)`
      sends an empty body, which does not parse. */
  function Received(r: Response<Option<SessionUser>>): SessionReply
  {
    var ok := 200 <= r.status < 300;
    match r.body
    case Payload(Some(u)) => Reply(ok, SessionJson(u))
    case Payload(None) => Unparsable(ok)
    case Text(s) => Reply(ok, Str(s))
    case Field(k, s) => Reply(ok, Obj([(k, Str(s))]))
    case NoBody => Unparsable(ok)
  }

  /** The admin page against the server's session endpoint: an admin is let
      in, another signed-in user is sent home, and a visitor with no session
      gets a 200 with an empty body and stays on "Loading…" rather than being
      sent to the login page. */
  lemma GateOfSession(session: Option<SessionUser>)
    ensures var g := CheckSession(Some(Received(Login.GetSession(session))));
            && (session.None? ==> g == Loading)
            && (session.Some? && session.value.isAdmin ==> g == Authorized(SessionJson(session.value)))
            && (session.Some? && !session.value.isAdmin ==> g == Redirect("/"))
  {
    if session.Some? {
      assert Get(SessionJson(session.value), "isAdmin") == Bool(session.value.isAdmin);
    }
  }

  /** The admin search: the name, or a non-empty description, contains the
      search text, compared lower-cased. */
  predicate AdminMatches(pl: FeedPlaylist, search: string)
  {
    || Contains(ToLower(pl.name), ToLower(search))
    || (pl.description.Some? && pl.description.value != "" && Contains(ToLower(pl.description.value), ToLower(search)))
  }

  function AdminFilter(playlists: seq<FeedPlaylist>, search: string): (r: seq<FeedPlaylist>)
    ensures forall pl :: pl in r <==> pl in playlists && AdminMatches(pl, search)
    ensures |r| <= |playlists|
  {
    Filter(playlists, pl => AdminMatches(pl, search))
  }

  /** The admin search and the feed search keep the same playlists: a
      missing or empty description only matters for the empty search text,
      which every name contains. */
  lemma AdminMatchesAsFeed(pl: FeedPlaylist, search: string)
    ensures AdminMatches(pl, search) <==> Matches(pl, search)
  {
    var name := ToLower(pl.name);
    if ToLower(search) == "" {
      assert "" <= name;
    } else {
      assert ToLower("") == "";
      assert !Contains("", ToLower(search));
    }
  }

  /** The admin search keeps the matching playlists in their original
      order, each as often as it occurs: filtering a concatenation filters
      each part, and a single playlist is kept exactly when it matches. */
  lemma AdminFilterInOrder(a: seq<FeedPlaylist>, b: seq<FeedPlaylist>, pl: FeedPlaylist, search: string)
    ensures AdminFilter(a + b, search) == AdminFilter(a, search) + AdminFilter(b, search)
    ensures AdminFilter([pl], search) == if AdminMatches(pl, search) then [pl] else []
  {
    FilterAppend(a, b, p => AdminMatches(p, search));
    assert [pl][1..] == [];
  }

  lemma {:induction false} AdminFilterAsFeed(playlists: seq<FeedPlaylist>, search: string)
    ensures AdminFilter(playlists, search) == FilterPlaylists(playlists, search)
  {
    if |playlists| > 0 {
      AdminMatchesAsFeed(playlists[0], search);
      AdminFilterAsFeed(playlists[1..], search);
    }
  }

  /** The playlist editor: the form, the playlist being edited, if any, and whether the dialog is open. */
  datatype Form = Form(name: string, description: string)
  datatype Editor = Editor(form: Form, editId: Option<string>, open: bool)

  /** The requests a submission sends, in order. */
  datatype Effect = UpdateRequest(id: string, form: Form) | CreateRequest(form: Form) | Reload

  function OpenNew(): (e: Editor)
    ensures e.open && e.editId.None? && e.form == Form("", "")
  {
    Editor(Form("", ""), None, true)
  }

  function StartEdit(pl: FeedPlaylist): (e: Editor)
    ensures e.open && e.editId == Some(pl.id) && e.form.name == pl.name
    ensures e.form.description == (if pl.description.Some? then pl.description.value else "")
  {
    Editor(Form(pl.name, if pl.description.Some? && pl.description.value != "" then pl.description.value else ""), Some(pl.id), true)
  }

  /** Submitting: an update when a (non-empty) id is being edited, a create
      otherwise. Then the dialog closes and the list is fetched again. A
      create the server refuses throws, which skips both: the dialog stays
      open and nothing is reloaded. A refused update is only reported, so
      the submit goes on. `createOk` is whether the create request succeeded. */
  function Submit(e: Editor, createOk: bool): (r: (seq<Effect>, Editor))
    ensures |r.0| >= 1 && !r.0[0].Reload? && r.0[0].form == e.form
    ensures r.0[0].UpdateRequest? <==> e.editId.Some? && e.editId.value != ""
    ensures r.0[0].UpdateRequest? ==> r.0[0].id == e.editId.value
    ensures r.0[0].UpdateRequest? || createOk ==> |r.0| == 2 && r.0[1] == Reload && r.1 == e.(open := false)
    ensures !r.0[0].UpdateRequest? && !createOk ==> r.0 == [CreateRequest(e.form)] && r.1 == e
  {
    if e.editId.Some? && e.editId.value != "" then ([UpdateRequest(e.editId.value, e.form), Reload], e.(open := false))
    else if createOk then ([CreateRequest(e.form), Reload], e.(open := false))
    else ([CreateRequest(e.form)], e)
  }

  /** Editing an existing playlist submits an update of that playlist with
      its current name and description and always closes the dialog; a new
      one submits a create, and the dialog stays open when the create fails. */
  lemma EditThenSubmit(pl: FeedPlaylist, createOk: bool)
    requires pl.id != ""
    ensures Submit(StartEdit(pl), createOk).0[0] == UpdateRequest(pl.id, Form(pl.name, if pl.description.Some? then pl.description.value else ""))
    ensures !Submit(StartEdit(pl), createOk).1.open
    ensures Submit(OpenNew(), createOk).0[0] == CreateRequest(Form("", ""))
    ensures Submit(OpenNew(), createOk).1.open <==> !createOk
  {
  }
}
