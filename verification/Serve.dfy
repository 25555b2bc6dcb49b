/**
 * The auxiliary live-reload server (aiohttp_runserver/serve.py): the registry
 * of connected browser sessions (`app[WS]`), the fan-out of `reload`
 * messages, the per-frame handling of the live-reload protocol, the cached
 * `livereload.js` script, the snippet injected into HTML pages of the main
 * app, the directory-index rewrite of its static route and the size label of
 * its access log.
 *
 * Session transports are identified by `SessionId`s; everything the server
 * writes to them is appended to `AuxiliaryApp.wire`, so what a client
 * receives is a plain sequence.
 */
module Serve {
  import opened Wrappers
  import opened Text
  import opened Paths
  import opened Json

  const Protocol7 := "http://livereload.com/protocols/official-7"
  const ServerName := "livereload-aiohttp"

  type SessionId = nat

  /** The one reply the server ever sends a client: its half of the handshake. */
  function Handshake(): (m: Json)
  {
    JObject([
      ("command", JString("hello")),
      ("protocols", JArray([JString(Protocol7)])),
      ("serverName", JString(ServerName))
    ])
  }

  /** The message asking a browser to reload the asset at `path`. */
  function ReloadMessage(path: string): (m: Json)
  {
    JObject([
      ("command", JString("reload")),
      ("path", JString(path)),
      ("liveCSS", JBool(true)),
      ("liveImg", JBool(true))
    ])
  }

  /** What the server does on a session's transport. */
  datatype Wire = Send(to: SessionId, message: Json) | Close(to: SessionId)

  // ---------------------------------------------------------------------------
  // static_reload

  datatype ReloadError =
    | NotUnderStaticRoot          // `relative_to` raised ValueError
    | SendFailed(to: SessionId)   // sending on that session's transport raised

  /** One reload message to each session, in registry order. */
  function ReloadFanout(sessions: seq<SessionId>, path: string): (r: seq<Wire>)
    ensures |r| == |sessions|
    ensures forall i :: 0 <= i < |sessions| ==> r[i] == Send(sessions[i], ReloadMessage(path))
  {
    if sessions == [] then []
    else [Send(sessions[0], ReloadMessage(path))] + ReloadFanout(sessions[1..], path)
  }

  /** The position of the first session whose transport fails, or `|sessions|` if none does. */
  function FirstBroken(sessions: seq<SessionId>, broken: set<SessionId>): (k: nat)
    ensures k <= |sessions|
    ensures forall i :: 0 <= i < k ==> sessions[i] !in broken
    ensures k < |sessions| ==> sessions[k] in broken
  {
    if sessions == [] || sessions[0] in broken then 0
    else 1 + FirstBroken(sessions[1..], broken)
  }

  /** A position whose predecessors all work and whose own transport fails is the first broken one. */
  lemma FirstBrokenAt(sessions: seq<SessionId>, broken: set<SessionId>, i: nat)
    requires i <= |sessions|
    requires forall j :: 0 <= j < i ==> sessions[j] !in broken
    requires i < |sessions| ==> sessions[i] in broken
    ensures FirstBroken(sessions, broken) == i
  {
  }

  /** The fan-out over one more session sends one more message, to that session. */
  lemma ReloadFanoutSnoc(sessions: seq<SessionId>, i: nat, path: string)
    requires i < |sessions|
    ensures ReloadFanout(sessions[..i + 1], path) == ReloadFanout(sessions[..i], path) + [Send(sessions[i], ReloadMessage(path))]
  {
    var a := ReloadFanout(sessions[..i + 1], path);
    var b := ReloadFanout(sessions[..i], path) + [Send(sessions[i], ReloadMessage(path))];
    assert |a| == |b|;
    forall j | 0 <= j < |a| ensures a[j] == b[j] {
      assert sessions[..i + 1][j] == sessions[j];
      if j < i {
        assert sessions[..i][j] == sessions[j];
      }
    }
  }

  datatype ReloadEffect = ReloadEffect(result: Result<(), ReloadError>, sent: seq<Wire>)

  /**
   * What `static_reload(src)` does, given the static root, the registry and
   * the sessions whose transport raises on send: the relative path is
   * computed first (and can fail with no session connected), an empty
   * registry sends nothing, and otherwise the messages go out in registry
   * order until a send raises, which ends the loop.
   */
  function StaticReloadEffect(staticRoot: Path, sessions: seq<SessionId>, src: Path, broken: set<SessionId>): (e: ReloadEffect)
    ensures e.result.Success? <==>
      RelativeTo(src, staticRoot).Some? && forall i :: 0 <= i < |sessions| ==> sessions[i] !in broken
    ensures |e.sent| <= |sessions|
    ensures forall i :: 0 <= i < |e.sent| ==> e.sent[i].Send? && e.sent[i].to == sessions[i]
    ensures e.result.Failure? && RelativeTo(src, staticRoot).Some? ==>
      |e.sent| < |sessions| && e.result.error == SendFailed(sessions[|e.sent|])
    ensures RelativeTo(src, staticRoot).Some? ==>
      && |e.sent| == FirstBroken(sessions, broken)
      && forall i :: 0 <= i < |e.sent| ==>
           e.sent[i] == Send(sessions[i], ReloadMessage(Render(RelativeTo(src, staticRoot).value)))
  {
    match RelativeTo(src, staticRoot)
    case None => ReloadEffect(Failure(NotUnderStaticRoot), [])
    case Some(rel) =>
      if |sessions| == 0 then ReloadEffect(Success(()), [])
      else
        var k := FirstBroken(sessions, broken);
        ReloadEffect(
          if k < |sessions| then Failure(SendFailed(sessions[k])) else Success(()),
          ReloadFanout(sessions[..k], Render(rel)))
  }

  /** A changed file outside the static root raises, even when no browser is connected. */
  lemma ReloadOutsideRoot(staticRoot: Path, sessions: seq<SessionId>, src: Path, broken: set<SessionId>)
    requires RelativeTo(src, staticRoot).None?
    ensures StaticReloadEffect(staticRoot, sessions, src, broken) == ReloadEffect(Failure(NotUnderStaticRoot), [])
  {
  }

  /** With no session registered nothing is sent. */
  lemma ReloadNoSessions(staticRoot: Path, src: Path, broken: set<SessionId>)
    requires RelativeTo(src, staticRoot).Some?
    ensures StaticReloadEffect(staticRoot, [], src, broken) == ReloadEffect(Success(()), [])
  {
  }

  /**
   * When every transport accepts the message, each registered session gets
   * exactly one reload message, in registry order, carrying the path
   * relative to the static root (no URL prefix).
   */
  lemma ReloadReachesEverySession(staticRoot: Path, sessions: seq<SessionId>, src: Path, broken: set<SessionId>)
    requires RelativeTo(src, staticRoot).Some?
    requires forall i :: 0 <= i < |sessions| ==> sessions[i] !in broken
    ensures var effect := StaticReloadEffect(staticRoot, sessions, src, broken);
      var path := Render(RelativeTo(src, staticRoot).value);
      && effect.result == Success(())
      && |effect.sent| == |sessions|
      && forall i :: 0 <= i < |sessions| ==> effect.sent[i] == Send(sessions[i], ReloadMessage(path))
  {
    var k := FirstBroken(sessions, broken);
    assert k == |sessions|;
    assert sessions[..k] == sessions;
  }

  /**
   * The fan-out is not best-effort: once the transport of the session at
   * position `j` raises, no session after it is sent anything.
   */
  lemma ReloadStopsAtBrokenSession(staticRoot: Path, sessions: seq<SessionId>, src: Path, broken: set<SessionId>, j: nat)
    requires RelativeTo(src, staticRoot).Some?
    requires j < |sessions| && sessions[j] in broken
    ensures var effect := StaticReloadEffect(staticRoot, sessions, src, broken);
      effect.result.Failure? && |effect.sent| <= j
      && forall i :: 0 <= i < |effect.sent| ==> effect.sent[i].to == sessions[i]
  {
  }

  /**
   * When the session at position `j` is the first whose transport raises,
   * every session before it has been sent its reload message, in registry
   * order, and the call fails naming that session.
   */
  lemma ReloadReachesSessionsBeforeBroken(staticRoot: Path, sessions: seq<SessionId>, src: Path, broken: set<SessionId>, j: nat)
    requires RelativeTo(src, staticRoot).Some?
    requires j < |sessions| && sessions[j] in broken
    requires forall i :: 0 <= i < j ==> sessions[i] !in broken
    ensures var effect := StaticReloadEffect(staticRoot, sessions, src, broken);
      var path := Render(RelativeTo(src, staticRoot).value);
      && effect.result == Failure(SendFailed(sessions[j]))
      && |effect.sent| == j
      && forall i :: 0 <= i < j ==> effect.sent[i] == Send(sessions[i], ReloadMessage(path))
  {
    FirstBrokenAt(sessions, broken, j);
  }

  // ---------------------------------------------------------------------------
  // The live-reload protocol, one frame at a time

  /** A frame as the websocket delivers it; `decoded` is `json.loads(data)`, `None` when it raised. */
  datatype Frame =
    | TextFrame(data: string, decoded: Option<Json>)
    | ErrorFrame
    | OtherFrame(kind: string)

  datatype FrameOutcome =
    | Reply(message: Json)   // `ws.send_str(...)`
    | CloseSession           // `ws.close()`
    | NoReply                // logged, or ignored
    | Raise(error: PyError)  // the exception leaves the handler

  /** The frame is a decoded dict whose `command` is `"hello"`. */
  predicate IsHello(frame: Frame)
  {
    frame.TextFrame? && frame.decoded.Some? && frame.decoded.value.JObject?
    && Lookup(frame.decoded.value.members, "command") == Some(JString("hello"))
  }

  /**
   * The `else` branch of the loop for a decoded frame: dispatch on
   * `data['command']`. Only a `hello` can be answered or closed, and the
   * exceptions are a TypeError from subscripting or `in`, or a KeyError for
   * one of the four keys the code reads.
   */
  function HandleCommand(data: Json): (r: FrameOutcome)
    ensures !data.JObject? ==> r == Raise(TypeError)
    ensures r.Reply? ==> r == Reply(Handshake())
    ensures r.Reply? || r.CloseSession? ==> Index(data, "command") == Success(JString("hello"))
    ensures r.Raise? ==>
      r.error in {TypeError, KeyError("command"), KeyError("protocols"), KeyError("url"), KeyError("plugins")}
  {
    match Index(data, "command")
    case Failure(e) => Raise(e)
    case Success(command) =>
      if command == JString("hello") then
        match Index(data, "protocols")
        case Failure(e) => Raise(e)
        case Success(protocols) =>
          match In(Protocol7, protocols)
          case Failure(e) => Raise(e)
          case Success(found) => if found then Reply(Handshake()) else CloseSession
      else if command == JString("info") then
        // both values are looked up to be logged, so either missing raises
        match Index(data, "url")
        case Failure(e) => Raise(e)
        case Success(_) =>
          match Index(data, "plugins")
          case Failure(e) => Raise(e)
          case Success(_) => NoReply
      else
        NoReply
  }

  /**
   * The body of the `async for msg in ws` loop for one frame. Only a text
   * frame that decodes can provoke a reply, a close or an exception, and
   * the only reply is the handshake.
   */
  function HandleFrame(frame: Frame): (r: FrameOutcome)
    ensures r.Reply? ==> r.message == Handshake()
    ensures r.Reply? || r.CloseSession? ==> IsHello(frame)
    ensures !(frame.TextFrame? && frame.decoded.Some?) ==> r == NoReply
  {
    match frame
    case TextFrame(_, decoded) =>
      if decoded.None? then NoReply else HandleCommand(decoded.value)
    case ErrorFrame => NoReply
    case OtherFrame(_) => NoReply
  }

  /** A `hello` listing its protocols gets the handshake exactly when protocol 7 is among them, and is closed otherwise. */
  lemma HelloNegotiation(data: string, members: seq<(string, Json)>, protocols: seq<Json>)
    requires Lookup(members, "command") == Some(JString("hello"))
    requires Lookup(members, "protocols") == Some(JArray(protocols))
    ensures HandleFrame(TextFrame(data, Some(JObject(members)))) ==
      if JString(Protocol7) in protocols then Reply(Handshake()) else CloseSession
  {
  }

  /** A decoded dict without a `command` key raises `KeyError`. */
  lemma MissingCommandRaises(data: string, members: seq<(string, Json)>)
    requires !HasKey(members, "command")
    ensures HandleFrame(TextFrame(data, Some(JObject(members)))) == Raise(KeyError("command"))
  {
  }

  /** `info` frames, unknown commands, undecodable text and non-text frames are answered with nothing. */
  lemma SilentFrames(frame: Frame)
    requires
      || frame.ErrorFrame? || frame.OtherFrame?
      || (frame.TextFrame? && frame.decoded.None?)
      || (frame.TextFrame? && frame.decoded.Some? && frame.decoded.value.JObject?
          && var ms := frame.decoded.value.members;
          && Lookup(ms, "command").Some?
          && Lookup(ms, "command") != Some(JString("hello"))
          && (Lookup(ms, "command") == Some(JString("info")) ==> HasKey(ms, "url") && HasKey(ms, "plugins")))
    ensures HandleFrame(frame) == NoReply
  {
  }

  /** What a frame outcome puts on the session's transport. */
  function FrameWire(ws: SessionId, outcome: FrameOutcome): (w: seq<Wire>)
  {
    match outcome
    case Reply(m) => [Send(ws, m)]
    case CloseSession => [Close(ws)]
    case _ => []
  }

  datatype SessionRun = SessionRun(sent: seq<Wire>, error: Option<PyError>)

  /**
   * The frames of one session handled in order, until one of them raises:
   * each frame puts at most one item on the transport, and an exception
   * that ends the run is the one some frame raised.
   */
  function RunFrames(ws: SessionId, frames: seq<Frame>): (r: SessionRun)
    ensures |r.sent| <= |frames|
    ensures r.error.Some? ==> exists i :: 0 <= i < |frames| && HandleFrame(frames[i]) == Raise(r.error.value)
  {
    if frames == [] then SessionRun([], None)
    else
      var init := frames[..|frames| - 1];
      var before := RunFrames(ws, init);
      assert forall i :: 0 <= i < |init| ==> init[i] == frames[i];
      if before.error.Some? then before
      else match HandleFrame(frames[|frames| - 1])
        case Raise(e) => SessionRun(before.sent, Some(e))
        case outcome => SessionRun(before.sent + FrameWire(ws, outcome), None)
  }

  /** One more frame after a run without exception: its outcome is added, or its exception ends the run. */
  lemma RunFramesStep(ws: SessionId, frames: seq<Frame>, i: nat)
    requires i < |frames|
    requires RunFrames(ws, frames[..i]).error.None?
    ensures var before := RunFrames(ws, frames[..i]);
      var outcome := HandleFrame(frames[i]);
      RunFrames(ws, frames[..i + 1]) ==
        if outcome.Raise? then SessionRun(before.sent, Some(outcome.error))
        else SessionRun(before.sent + FrameWire(ws, outcome), None)
  {
    assert frames[..i + 1][..i] == frames[..i];
    assert frames[..i + 1][i] == frames[i];
  }

  /** A session's transport only ever carries handshakes and close requests for that session. */
  lemma {:induction false} SessionOnlyHandshakes(ws: SessionId, frames: seq<Frame>)
    ensures forall w :: w in RunFrames(ws, frames).sent ==> w == Send(ws, Handshake()) || w == Close(ws)
  {
    if frames != [] {
      SessionOnlyHandshakes(ws, frames[..|frames| - 1]);
    }
  }

  /** The loop ends normally exactly when no frame raises. */
  lemma {:induction false} SessionEndsNormally(ws: SessionId, frames: seq<Frame>)
    ensures RunFrames(ws, frames).error.None? <==> forall i :: 0 <= i < |frames| ==> !HandleFrame(frames[i]).Raise?
  {
    if frames != [] {
      var init := frames[..|frames| - 1];
      var last := frames[|frames| - 1];
      SessionEndsNormally(ws, init);
      assert RunFrames(ws, frames).error.None? <==> RunFrames(ws, init).error.None? && !HandleFrame(last).Raise?;
      NoRaiseSplit(frames, init, last);
    }
  }

  /** No frame of `init + [last]` raises exactly when none of `init` does and `last` does not. */
  lemma NoRaiseSplit(frames: seq<Frame>, init: seq<Frame>, last: Frame)
    requires frames == init + [last]
    ensures (forall i :: 0 <= i < |frames| ==> !HandleFrame(frames[i]).Raise?) <==>
      (forall i :: 0 <= i < |init| ==> !HandleFrame(init[i]).Raise?) && !HandleFrame(last).Raise?
  {
    assert forall i :: 0 <= i < |init| ==> init[i] == frames[i];
    assert frames[|init|] == last;
  }

  /** Once a frame has raised, later frames change nothing. */
  lemma {:induction false} RunFramesStops(ws: SessionId, frames: seq<Frame>, j: nat)
    requires j <= |frames|
    requires RunFrames(ws, frames[..j]).error.Some?
    ensures RunFrames(ws, frames) == RunFrames(ws, frames[..j])
  {
    if j < |frames| {
      assert frames[..|frames| - 1][..j] == frames[..j];
      RunFramesStops(ws, frames[..|frames| - 1], j);
      assert frames[..|frames|] == frames;
    } else {
      assert frames[..j] == frames;
    }
  }

  /** The position of the first occurrence of `x` (`list.index`). */
  function FirstIndex(s: seq<SessionId>, x: SessionId): (i: nat)
    requires x in s
    ensures i < |s| && s[i] == x && x !in s[..i]
  {
    if s[0] == x then 0
    else
      var k := FirstIndex(s[1..], x);
      assert s[..k + 1] == [s[0]] + s[1..][..k];
      k + 1
  }

  /** Cutting one element out of a sequence takes exactly that element out of its multiset. */
  lemma MultisetWithout(s: seq<SessionId>, i: nat)
    requires i < |s|
    ensures multiset(s[..i] + s[i + 1..]) == multiset(s) - multiset{s[i]}
  {
    assert s == s[..i] + [s[i]] + s[i + 1..];
  }

  /** `list.remove(x)`: drops the first occurrence and keeps the others in order. */
  function RemoveFirst(s: seq<SessionId>, x: SessionId): (r: seq<SessionId>)
    requires x in s
    ensures r == s[..FirstIndex(s, x)] + s[FirstIndex(s, x) + 1..]
    ensures multiset(r) == multiset(s) - multiset{x}
  {
    MultisetWithout(s, FirstIndex(s, x));
    if s[0] == x then
      s[1..]
    else
      var tail := s[1..];
      assert x in tail by { assert s == [s[0]] + tail; }
      var k := FirstIndex(tail, x);
      assert [s[0]] + (tail[..k] + tail[k + 1..]) == s[..k + 1] + s[k + 2..];
      [s[0]] + RemoveFirst(tail, x)
  }

  /** A session that connects and leaves normally leaves the registry as it found it. */
  lemma RemoveLastAdded(s: seq<SessionId>, x: SessionId)
    requires x !in s
    ensures RemoveFirst(s + [x], x) == s
  {
    var t := s + [x];
    var i := FirstIndex(t, x);
    assert i == |s|;
    assert t[..i] == s;
  }

  // ---------------------------------------------------------------------------
  // The auxiliary application

  datatype ScriptResponse = ScriptResponse(body: seq<bv8>, contentType: string)
  datatype ScriptError = ScriptUnreadable

  const JavaScript := "application/javascript"

  /**
   * The auxiliary `web.Application`: its configured static root, the list of
   * connected sessions stored under `WS`, and the script cached under
   * `livereload_script`. `wire` records, in order, every send and close the
   * server performs on a session transport.
   */
  class AuxiliaryApp {
    const staticRoot: Path
    var sessions: seq<SessionId>
    var wire: seq<Wire>
    var scriptCache: Option<seq<bv8>>

    /** `create_auxiliary_app`: the registry starts empty. */
    constructor (staticRoot: Path)
      ensures this.staticRoot == staticRoot
      ensures sessions == [] && wire == [] && scriptCache == None
    {
      this.staticRoot := staticRoot;
      sessions := [];
      wire := [];
      scriptCache := None;
    }

    /** `static_reload`: `broken` holds the sessions whose transport raises on send. */
    method StaticReload(src: Path, broken: set<SessionId>) returns (result: Result<(), ReloadError>)
      modifies this`wire
      ensures var effect := StaticReloadEffect(staticRoot, sessions, src, broken);
        result == effect.result && wire == old(wire) + effect.sent
    {
      var rel := RelativeTo(src, staticRoot);
      if rel.None? {
        return Failure(NotUnderStaticRoot);
      }
      if |sessions| == 0 {
        return Success(());
      }
      var path := Render(rel.value);
      var i := 0;
      while i < |sessions|
        invariant 0 <= i <= |sessions|
        invariant forall j :: 0 <= j < i ==> sessions[j] !in broken
        invariant wire == old(wire) + ReloadFanout(sessions[..i], path)
      {
        if sessions[i] in broken {
          FirstBrokenAt(sessions, broken, i);
          return Failure(SendFailed(sessions[i]));
        }
        wire := wire + [Send(sessions[i], ReloadMessage(path))];
        ReloadFanoutSnoc(sessions, i, path);
        i := i + 1;
      }
      FirstBrokenAt(sessions, broken, i);
      assert sessions[..i] == sessions;
      return Success(());
    }

    /** A websocket connects: its session is appended to the registry. */
    method Connect(ws: SessionId)
      modifies this`sessions
      ensures sessions == old(sessions) + [ws]
    {
      sessions := sessions + [ws];
    }

    /** `app[WS].remove(ws)`: raises `ValueError` when the session is not registered. */
    method Disconnect(ws: SessionId) returns (result: Result<(), PyError>)
      modifies this`sessions
      ensures ws in old(sessions) ==> result == Success(()) && sessions == RemoveFirst(old(sessions), ws)
      ensures ws !in old(sessions) ==> result == Failure(ValueError) && sessions == old(sessions)
    {
      if ws !in sessions {
        return Failure(ValueError);
      }
      sessions := RemoveFirst(sessions, ws);
      return Success(());
    }

    /** One iteration of the frame loop. */
    method ReceiveFrame(ws: SessionId, frame: Frame) returns (error: Option<PyError>)
      modifies this`wire
      ensures var outcome := HandleFrame(frame);
        && wire == old(wire) + FrameWire(ws, outcome)
        && error == if outcome.Raise? then Some(outcome.error) else None
    {
      var outcome := HandleFrame(frame);
      match outcome {
        case Reply(m) => wire := wire + [Send(ws, m)];
        case CloseSession => wire := wire + [Close(ws)];
        case _ =>
      }
      error := if outcome.Raise? then Some(outcome.error) else None;
    }

    /**
     * `websocket_handler` for a session that receives `frames` and nothing
     * else happens meanwhile: register, handle the frames in order, and
     * unregister when the loop ends normally. A frame that raises ends the
     * handler with the session still registered.
     */
    method RunSession(ws: SessionId, frames: seq<Frame>) returns (error: Option<PyError>)
      modifies this`sessions, this`wire
      ensures var run := RunFrames(ws, frames);
        error == run.error && wire == old(wire) + run.sent
      ensures error.Some? ==> sessions == old(sessions) + [ws]
      ensures error.None? ==> sessions == RemoveFirst(old(sessions) + [ws], ws)
    {
      Connect(ws);
      var i := 0;
      while i < |frames|
        invariant 0 <= i <= |frames|
        invariant sessions == old(sessions) + [ws]
        invariant RunFrames(ws, frames[..i]).error.None?
        invariant wire == old(wire) + RunFrames(ws, frames[..i]).sent
      {
        RunFramesStep(ws, frames, i);
        error := ReceiveFrame(ws, frames[i]);
        assert error == RunFrames(ws, frames[..i + 1]).error;
        assert wire == old(wire) + RunFrames(ws, frames[..i + 1]).sent;
        if error.Some? {
          RunFramesStops(ws, frames, i + 1);
          return;
        }
        i := i + 1;
      }
      assert frames[..i] == frames;
      error := None;
      assert ws in sessions;
      var removed := Disconnect(ws);
    }

    /** `lr_script_handler`: `disk` is what reading `livereload.js` yields, `None` when the read raises. */
    method ServeScript(disk: Option<seq<bv8>>) returns (result: Result<ScriptResponse, ScriptError>, readFromDisk: bool)
      modifies this`scriptCache
      ensures readFromDisk <==> old(scriptCache).None?
      ensures old(scriptCache).Some? ==>
        scriptCache == old(scriptCache) && result == Success(ScriptResponse(old(scriptCache).value, JavaScript))
      ensures old(scriptCache).None? && disk.Some? ==>
        scriptCache == disk && result == Success(ScriptResponse(disk.value, JavaScript))
      ensures old(scriptCache).None? && disk.None? ==>
        scriptCache == None && result == Failure(ScriptUnreadable)
    {
      readFromDisk := scriptCache.None?;
      if scriptCache.None? {
        if disk.None? {
          return Failure(ScriptUnreadable), readFromDisk;
        }
        scriptCache := disk;
      }
      result := Success(ScriptResponse(scriptCache.value, JavaScript));
    }
  }

  // ---------------------------------------------------------------------------
  // The main app's HTML responses

  const SnippetHead := "\n<script src=\"http://localhost:"
  const SnippetTail := "/livereload.js\"></script>\n"

  /** `LIVE_RELOAD_SNIPPET % aux_port`. */
  function LiveReloadSnippet(auxPort: int): (r: string)
    ensures |r| > |SnippetHead| + |SnippetTail|
    ensures r[..|SnippetHead|] == SnippetHead && r[|r| - |SnippetTail|..] == SnippetTail
  {
    SnippetHead + Decimal(auxPort) + SnippetTail
  }

  /** The snippet loads the script from the auxiliary port it was built with. */
  lemma SnippetNamesPort(auxPort: nat)
    ensures var s := LiveReloadSnippet(auxPort);
      var digits := s[|SnippetHead|..|s| - |SnippetTail|];
      && |s| > |SnippetHead| + |SnippetTail|
      && s[..|SnippetHead|] == SnippetHead
      && s[|s| - |SnippetTail|..] == SnippetTail
      && AllDigits(digits) && DigitsValue(digits) == auxPort
  {
    var s := LiveReloadSnippet(auxPort);
    var d := Decimal(auxPort);
    assert s[..|SnippetHead|] == SnippetHead;
    assert s[|SnippetHead|..|s| - |SnippetTail|] == d;
    assert s[|s| - |SnippetTail|..] == SnippetTail;
  }

  /** A response of the main app, as `on_prepare` sees it. */
  class Response {
    const contentType: string
    var body: string

    constructor (contentType: string, body: string)
      ensures this.contentType == contentType && this.body == body
    {
      this.contentType := contentType;
      this.body := body;
    }
  }

  /**
   * `on_prepare`, closing over the snippet built from `aux_port`: HTML
   * responses get it appended, all others are left alone.
   */
  method OnPrepare(response: Response, auxPort: int)
    modifies response`body
    ensures Contains(response.contentType, "text/html") ==> response.body == old(response.body) + LiveReloadSnippet(auxPort)
    ensures !Contains(response.contentType, "text/html") ==> response.body == old(response.body)
  {
    if Contains(response.contentType, "text/html") {
      response.body := response.body + LiveReloadSnippet(auxPort);
    }
  }

  // ---------------------------------------------------------------------------
  // The main app's static route

  const IndexFile := "index.html"
  const NotFoundBody := "404: Not Found\n\n"

  /** `directory.joinpath(filename).resolve()` and whether it is a directory; `None` when resolving raised. */
  datatype Resolved = Resolved(path: Path, isDir: bool)

  /** What the generic static handler does with a file name. */
  datatype Upstream =
    | Served(status: int, length: int)
    | NotModified
    | NotFound
    | OtherHttpError(status: int)

  datatype RouteError =
    | IndexOutsideRoot            // `relative_to` raised ValueError
    | NotModifiedRaised
    | HttpErrorRaised(status: int)

  datatype StatusField = Code(code: int) | Unknown
  datatype SizeArg = Blank | Size(n: int)
  datatype AccessLog = AccessLog(warning: bool, status: StatusField, size: string)
  datatype HttpReply = HttpReply(status: int, length: int)

  datatype RouteOutcome = RouteOutcome(result: Result<HttpReply, RouteError>, log: Option<AccessLog>)

  /** The file name handed to the generic handler: a directory is replaced by its `index.html`. */
  function IndexRewrite(directory: Path, filename: string, resolved: Option<Resolved>): (r: Result<string, RouteError>)
    ensures !(resolved.Some? && resolved.value.isDir) ==> r == Success(filename)
    ensures r.Failure? ==> r == Failure(IndexOutsideRoot) && resolved.Some? && resolved.value.isDir
  {
    match resolved
    case Some(Resolved(path, true)) =>
      (match RelativeTo(Joinpath(path, Path(false, [IndexFile])), directory)
       case None => Failure(IndexOutsideRoot)
       case Some(rel) => Success(Render(rel)))
    case _ => Success(filename)
  }

  /** A directory under the served root is served through the `index.html` inside it. */
  lemma DirectoryServesIndex(directory: Path, filename: string, path: Path)
    requires RelativeTo(path, directory).Some?
    ensures IndexRewrite(directory, filename, Some(Resolved(path, true))) ==
      Success(Render(Path(false, RelativeTo(path, directory).value.parts + [IndexFile])))
  {
    var rel := RelativeTo(path, directory).value;
    assert Joinpath(path, Path(false, [IndexFile])) == Joinpath(directory, Path(false, rel.parts + [IndexFile]));
    RelativeToJoinpath(directory, Path(false, rel.parts + [IndexFile]));
  }

  function LogLine(status: StatusField, length: SizeArg): (l: AccessLog)
    ensures l.status == status
    ensures !l.warning <==> status == Code(200) || status == Code(304)
    ensures l.size == "" <==> length.Blank?
  {
    FmtSizeBytes(length);
    AccessLog(!(status == Code(200) || status == Code(304)), status, FmtSize(length))
  }

  /**
   * `CustomStaticRoute.handle`: `serve` is the generic static handler. Every
   * request that reaches it is logged, as a warning unless the status is 200
   * or 304; a 404 becomes a response of its own.
   */
  function HandleStatic(directory: Path, filename: string, resolved: Option<Resolved>, serve: string -> Upstream): (r: RouteOutcome)
    ensures r.log.None? <==> IndexRewrite(directory, filename, resolved).Failure?
    ensures r.log.Some? ==> (r.log.value.warning <==> r.log.value.status != Code(200) && r.log.value.status != Code(304))
    ensures r.result.Success? ==> r.log == Some(LogLine(Code(r.result.value.status), Size(r.result.value.length)))
    ensures r.result.Failure? && r.log.Some? ==> r.log.value.status != Code(200)
    ensures var name := IndexRewrite(directory, filename, resolved);
      name.Success? && serve(name.value).Served? ==>
        r.result == Success(HttpReply(serve(name.value).status, serve(name.value).length))
        && r.log == Some(AccessLog(serve(name.value).status != 200 && serve(name.value).status != 304,
                                   Code(serve(name.value).status), FmtSize(Size(serve(name.value).length))))
    ensures var name := IndexRewrite(directory, filename, resolved);
      name.Success? && serve(name.value) == NotModified ==>
        r == RouteOutcome(Failure(NotModifiedRaised), Some(AccessLog(false, Code(304), "0B")))
    ensures var name := IndexRewrite(directory, filename, resolved);
      name.Success? && serve(name.value) == NotFound ==>
        r == RouteOutcome(Success(HttpReply(404, 16)), Some(AccessLog(true, Code(404), "16B")))
    ensures var name := IndexRewrite(directory, filename, resolved);
      name.Success? && serve(name.value).OtherHttpError? ==>
        r == RouteOutcome(Failure(HttpErrorRaised(serve(name.value).status)), Some(AccessLog(true, Unknown, "")))
  {
    assert FmtSize(Size(0)) == "0B";
    assert FmtSize(Size(16)) == "16B";
    match IndexRewrite(directory, filename, resolved)
    case Failure(e) => RouteOutcome(Failure(e), None)
    case Success(name) =>
      match serve(name)
      case Served(status, length) =>
        RouteOutcome(Success(HttpReply(status, length)), Some(LogLine(Code(status), Size(length))))
      case NotModified =>
        RouteOutcome(Failure(NotModifiedRaised), Some(LogLine(Code(304), Size(0))))
      case NotFound =>
        RouteOutcome(Success(HttpReply(404, |NotFoundBody|)), Some(LogLine(Code(404), Size(|NotFoundBody|))))
      case OtherHttpError(status) =>
        RouteOutcome(Failure(HttpErrorRaised(status)), Some(LogLine(Unknown, Blank)))
  }

  // ---------------------------------------------------------------------------
  // _fmt_size

  /**
   * `n / 1024` in tenths, rounded to the nearest tenth with ties to even, as
   * `'{:0.1f}'` rounds the exact quotient.
   */
  function KilobyteTenths(n: nat): (t: nat)
    ensures 2 * (t * 1024 - n * 10) <= 1024 && 2 * (n * 10 - t * 1024) <= 1024
  {
    var q := n * 10 / 1024;
    var rem := n * 10 % 1024;
    assert n * 10 == q * 1024 + rem;
    if 2 * rem > 1024 then q + 1
    else if 2 * rem < 1024 then q
    else if q % 2 == 0 then q else q + 1
  }

  /** `_fmt_size`: nothing for a blank size, whole bytes below 1024, tenths of a kilobyte from 1024 on. */
  function FmtSize(num: SizeArg): (r: string)
    ensures num.Blank? ==> r == ""
    ensures num.Size? ==> |r| >= 2 && r[|r| - 1] == 'B'
  {
    match num
    case Blank => ""
    case Size(n) =>
      if n < 1024 then Decimal(n) + "B"
      else
        var tenths := KilobyteTenths(n);
        Decimal(tenths / 10) + "." + [DigitChar(tenths % 10)] + "KB"
  }

  /** Only the blank size renders as the empty string; sizes below 1024 render as their byte count. */
  lemma FmtSizeBytes(num: SizeArg)
    ensures FmtSize(num) == "" <==> num.Blank?
    ensures num.Size? && 0 <= num.n < 1024 ==>
      var r := FmtSize(num);
      && r[|r| - 1] == 'B'
      && AllDigits(r[..|r| - 1]) && DigitsValue(r[..|r| - 1]) == num.n
  {
    if num.Size? && 0 <= num.n < 1024 {
      var r := FmtSize(num);
      assert r[..|r| - 1] == Decimal(num.n);
    }
  }

  /** From 1024 bytes on, the label is a whole and a tenth of a kilobyte, within half a tenth of the size. */
  lemma FmtSizeKilobytes(n: int)
    requires n >= 1024
    ensures var r := FmtSize(Size(n));
      && |r| >= 5
      && r[|r| - 2..] == "KB" && r[|r| - 4] == '.' && IsDigit(r[|r| - 3])
      && AllDigits(r[..|r| - 4])
      && var tenths := DigitsValue(r[..|r| - 4]) * 10 + (r[|r| - 3] as int - '0' as int);
         2 * (tenths * 1024 - n * 10) <= 1024 && 2 * (n * 10 - tenths * 1024) <= 1024
  {
    var t := KilobyteTenths(n);
    var r := FmtSize(Size(n));
    var whole := Decimal(t / 10);
    assert r == whole + "." + [DigitChar(t % 10)] + "KB";
    assert r[..|r| - 4] == whole;
    assert t / 10 * 10 + t % 10 == t;
  }
}
