/**
 * The e-mail confirmation callback of src/app/auth/callback/route.ts: a
 * non-empty `code` is exchanged for a session and, when that works, the
 * visitor goes to `next` (the login page by default); in every other case
 * the visitor goes to the login page with an error notice. The exchange is
 * an input saying whether it failed.
 */
module AuthCallback {
  import opened Wrappers

  const ErrorPath: string := "/login?message=auth_code_error"

  /** The reply: which code was exchanged, if any, and where the browser is sent. */
  datatype Reply = Reply(exchanged: Option<string>, location: string)

  /** `searchParams.get('next') ?? '/login'`: only a missing parameter is replaced. */
  function NextPath(next: Option<string>): (p: string)
    ensures next.None? ==> p == "/login"
    ensures next.Some? ==> p == next.value
  {
    next.GetOr("/login")
  }

  /** `GET`: `code` and `next` are the query parameters (`None` when absent). */
  function HandleCallback(origin: string, code: Option<string>, next: Option<string>, exchangeFails: bool): (r: Reply)
    ensures r.exchanged.Some? <==> code.Some? && code.value != ""
    ensures r.exchanged.Some? ==> r.exchanged == code
    ensures code.Some? && code.value != "" && !exchangeFails ==> r.location == origin + NextPath(next)
    ensures code.None? || code.value == "" || exchangeFails ==> r.location == origin + ErrorPath
  {
    if code.Some? && code.value != "" then
      if !exchangeFails then Reply(code, origin + NextPath(next))
      else Reply(code, origin + ErrorPath)
    else Reply(None, origin + ErrorPath)
  }

  /** The visitor reaches `next` exactly when a code was exchanged without error (or when
      `next` is the error page itself), and is sent to the error page otherwise. */
  lemma ReachesNext(origin: string, code: Option<string>, next: Option<string>, exchangeFails: bool)
    ensures HandleCallback(origin, code, next, exchangeFails).location == origin + NextPath(next) <==>
      (code.Some? && code.value != "" && !exchangeFails) || NextPath(next) == ErrorPath
  {
    var r := HandleCallback(origin, code, next, exchangeFails);
    if r.location == origin + NextPath(next) && !(code.Some? && code.value != "" && !exchangeFails) {
      assert NextPath(next) == (origin + NextPath(next))[|origin|..];
      assert ErrorPath == (origin + ErrorPath)[|origin|..];
    }
  }

  /** A confirmed link with no `next` lands on the login page, and an empty `next` lands
      on the bare origin. */
  lemma NextDefaults(origin: string, code: string)
    requires code != ""
    ensures HandleCallback(origin, Some(code), None, false).location == origin + "/login"
    ensures HandleCallback(origin, Some(code), Some(""), false).location == origin
  {
    assert origin + "" == origin;
  }
}
