/**
 * The client session: sign-in and sign-out, the four page readers, and the two
 * state-changing protocols, over the scripted transport.
 */
module Client {
  import opened Wrappers
  import opened Text
  import opened Numbers
  import opened Portal
  import opened Page
  import opened Transport

  /** The sign-in form: credentials, the submit label, and the keep-logged-in flag when asked for. */
  function SignInForm(userName: string, password: string, keepLoggedIn: bool): (form: Form)
    ensures Names(form) == ["username", "password", "login"] + (if keepLoggedIn then ["keeploggedin"] else [])
    ensures form[0].value == Some(userName) && form[1].value == Some(password)
    ensures form[2].value == Some("Sign In")
    ensures keepLoggedIn ==> form[3].value == Some("YES")
  {
    [Field("username", Some(userName)), Field("password", Some(password)), Field("login", Some("Sign In"))]
      + (if keepLoggedIn then [Field("keeploggedin", Some("YES"))] else [])
  }

  /** The set-mode form: one shiftModeId field whose text parses back to the mode. */
  function ModeForm(mode: int32): (form: Form)
    ensures Names(form) == ["shiftModeId"]
    ensures form[0].value.Some? && ParseInt32(form[0].value.value) == Some(mode)
  {
    ParseShow(mode);
    [Field("shiftModeId", Some(Show(mode as int)))]
  }

  /** Sign-in and sign-out succeed exactly on a final 302 Found. */
  predicate IsFound(r: Option<Response>) {
    r.Some? && r.value.status == Found
  }

  /** A state change succeeded: the final response has a Location ending with the suffix, ignoring case. */
  predicate Confirms(r: Option<Response>, suffix: string) {
    r.Some? && r.value.location.Some? && EndsWithIgnoreCase(r.value.location.value, suffix)
  }

  class AdtApi {
    /** The Referer default header, set only for the duration of an arm change. */
    var referer: Option<string>
    /** The replies the network will give, in order. */
    var replies: seq<Reply>
    /** Everything the session has sent, and its pauses, in order. */
    var trace: seq<Event>

    constructor (network: seq<Reply>)
      ensures referer == None && replies == network && trace == []
    {
      referer := None;
      replies := network;
      trace := [];
    }

    /** `HttpGet` and `HttpPost`: send, and re-send to the Location while the status is 307. */
    method Send(verb: Verb, url: string, form: Form) returns (r: Option<Response>)
      modifies this`replies, this`trace
      ensures var f := Follow(verb, url, form, referer, old(replies));
        r == f.result && trace == old(trace) + f.events && replies == f.rest
    {
      var target, pending, sent := url, replies, [];
      ghost var whole := Follow(verb, url, form, referer, replies);
      while true
        invariant trace == old(trace) && replies == old(replies)
        invariant whole.result == Follow(verb, target, form, referer, pending).result
        invariant whole.rest == Follow(verb, target, form, referer, pending).rest
        invariant whole.events == sent + Follow(verb, target, form, referer, pending).events
        decreases |pending|
      {
        var request := Sent(Request(verb, target, form, referer));
        if pending == [] {
          r, trace, replies := None, trace + (sent + [request]), [];
          return;
        }
        var reply := pending[0];
        if !Redirects(reply) {
          // a final status, a transport error, or a 307 without a Location
          r, trace, replies := Outcome(reply), trace + (sent + [request]), pending[1..];
          return;
        }
        FollowRedirect(verb, target, form, referer, pending);
        target, pending, sent := reply.response.location.value, pending[1..], sent + [request];
      }
    }

    method HttpGet(url: string) returns (r: Option<Response>)
      modifies this`replies, this`trace
      ensures var f := Follow(Get, url, [], referer, old(replies));
        r == f.result && trace == old(trace) + f.events && replies == f.rest
    {
      r := Send(Get, url, []);
    }

    method HttpPost(url: string, form: Form) returns (r: Option<Response>)
      modifies this`replies, this`trace
      ensures var f := Follow(Post, url, form, referer, old(replies));
        r == f.result && trace == old(trace) + f.events && replies == f.rest
    {
      r := Send(Post, url, form);
    }

    method SignIn(userName: string, password: string, keepLoggedIn: bool := true) returns (ok: bool)
      modifies this`replies, this`trace
      ensures var f := Follow(Post, AdtDomain + SignInUrl, SignInForm(userName, password, keepLoggedIn), referer, old(replies));
        ok == IsFound(f.result) && trace == old(trace) + f.events && replies == f.rest
    {
      var response := HttpPost(AdtDomain + SignInUrl, SignInForm(userName, password, keepLoggedIn));
      ok := IsFound(response);
    }

    method SignOut() returns (ok: bool)
      modifies this`replies, this`trace
      ensures var f := Follow(Get, AdtDomain + SignOutUrl, [], referer, old(replies));
        ok == IsFound(f.result) && trace == old(trace) + f.events && replies == f.rest
    {
      var response := HttpGet(AdtDomain + SignOutUrl);
      ok := IsFound(response);
    }

    method GetSummary() returns (summary: Option<Summary>)
      modifies this`replies, this`trace
      ensures var f := Follow(Get, AdtDomain + SummaryUrl, [], referer, old(replies));
        && summary == (if f.result.Some? then SummaryOf(f.result.value.body) else None)
        && trace == old(trace) + f.events && replies == f.rest
    {
      var response := HttpGet(AdtDomain + SummaryUrl);
      if response.None? {
        return None;
      }
      summary := SummaryOf(response.value.body);
    }

    method ListArmOptions() returns (options: Option<seq<ArmOption>>)
      modifies this`replies, this`trace
      ensures var f := Follow(Get, AdtDomain + ListArmUrl, [], referer, old(replies));
        && options == (if f.result.Some? then ArmOptions(f.result.value.body) else None)
        && trace == old(trace) + f.events && replies == f.rest
    {
      var response := HttpGet(AdtDomain + ListArmUrl);
      if response.None? {
        return None;
      }
      options := ArmOptions(response.value.body);
    }

    method ListModes() returns (options: Option<seq<ModeOption>>)
      modifies this`replies, this`trace
      ensures var f := Follow(Get, AdtDomain + ListModeUrl, [], referer, old(replies));
        && options == (if f.result.Some? then ModeOptions(f.result.value.body) else None)
        && trace == old(trace) + f.events && replies == f.rest
    {
      var response := HttpGet(AdtDomain + ListModeUrl);
      if response.None? {
        return None;
      }
      options := ModeOptions(response.value.body);
    }

    method GetLog() returns (log: Option<seq<string>>)
      modifies this`replies, this`trace
      ensures var f := Follow(Get, AdtDomain + LogUrl, [], referer, old(replies));
        && log == (if f.result.Some? then Some(LogOf(f.result.value.body)) else None)
        && trace == old(trace) + f.events && replies == f.rest
    {
      var response := HttpGet(AdtDomain + LogUrl);
      if response.None? {
        return None;
      }
      log := Some(LogOf(response.value.body));
    }

    /** Fetch the arm page afresh and scrape the token bag for changing to `value`. */
    method GetArmContent(value: string) returns (content: Option<Form>)
      modifies this`replies, this`trace
      ensures var f := Follow(Get, AdtDomain + ListArmUrl, [], referer, old(replies));
        && content == (if f.result.Some? then ArmContent(f.result.value.body, value) else None)
        && trace == old(trace) + f.events && replies == f.rest
    {
      var response := HttpGet(AdtDomain + ListArmUrl);
      if response.None? {
        return None;
      }
      content := ArmContent(response.value.body, value);
    }

    /**
     * Change the arm state: scrape a fresh token bag; without one, fail before any POST
     * and leave the referer alone. Otherwise POST the bag with the arm page as referer,
     * succeed iff the Location ends with the control-done suffix, and clear the referer
     * on every path.
     */
    method SetArm(value: string) returns (ok: bool)
      modifies this
      ensures var g := Follow(Get, AdtDomain + ListArmUrl, [], old(referer), old(replies));
        var bag := if g.result.Some? then ArmContent(g.result.value.body, value) else None;
        if bag.None? then
          && !ok && referer == old(referer)
          && trace == old(trace) + g.events && replies == g.rest
        else
          var p := Follow(Post, AdtDomain + SetArmUrl, bag.value, Some(AdtDomain + ListArmUrl), g.rest);
          && ok == Confirms(p.result, SetArmSuccessSuffix)
          && referer == None
          && trace == old(trace) + g.events + p.events && replies == p.rest
    {
      var content := GetArmContent(value);
      if content.None? {
        return false;
      }
      referer := Some(AdtDomain + ListArmUrl);
      var response := HttpPost(AdtDomain + SetArmUrl, content.value);
      ok := Confirms(response, SetArmSuccessSuffix);
      referer := None;
    }

    /** One attempt to change the mode: succeed iff the Location ends with the summary suffix. */
    method SetModeOneTry(mode: int32) returns (ok: bool)
      modifies this`replies, this`trace
      ensures var f := Follow(Post, AdtDomain + SetModeUrl, ModeForm(mode), referer, old(replies));
        ok == Confirms(f.result, SetModeSuccessSuffix) && trace == old(trace) + f.events && replies == f.rest
    {
      var response := HttpPost(AdtDomain + SetModeUrl, ModeForm(mode));
      ok := Confirms(response, SetModeSuccessSuffix);
    }

    /**
     * Change the mode with one retry: after a failed attempt, fetch the mode page,
     * pause for one second, and attempt once more; succeed iff an attempt succeeded.
     */
    method SetMode(mode: int32) returns (ok: bool)
      modifies this`replies, this`trace
      ensures var a := Follow(Post, AdtDomain + SetModeUrl, ModeForm(mode), referer, old(replies));
        if Confirms(a.result, SetModeSuccessSuffix) then
          ok && trace == old(trace) + a.events && replies == a.rest
        else
          var l := Follow(Get, AdtDomain + ListModeUrl, [], referer, a.rest);
          var b := Follow(Post, AdtDomain + SetModeUrl, ModeForm(mode), referer, l.rest);
          && ok == Confirms(b.result, SetModeSuccessSuffix)
          && trace == old(trace) + a.events + l.events + [Delay(1000)] + b.events
          && replies == b.rest
    {
      ghost var a := Follow(Post, AdtDomain + SetModeUrl, ModeForm(mode), referer, replies);
      ok := SetModeOneTry(mode);
      if ok {
        return;
      }
      ghost var l := Follow(Get, AdtDomain + ListModeUrl, [], referer, replies);
      var _ := ListModes();
      trace := trace + [Delay(1000)];
      ghost var b := Follow(Post, AdtDomain + SetModeUrl, ModeForm(mode), referer, replies);
      ok := SetModeOneTry(mode);
      assert trace == old(trace) + a.events + l.events + [Delay(1000)] + b.events;
    }
  }
}
