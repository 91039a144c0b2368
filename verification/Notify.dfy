/** The completion callback (src/notify.py:143-191): a bounded number of attempts to
    POST the final status, and the log tail that goes with it (88-124). The world
    answers the k-th POST; signing, DNS and the address checks are a parameter. */
module Notify {
  import opened Common
  import opened Jobs

  datatype Attempt = Response(code: nat) | RequestError(message: string)

  /** `raise_for_status`: redirects, which are not followed, count as delivered. */
  predicate Accepted(a: Attempt) {
    a.Response? && !(400 <= a.code < 600)
  }

  /** What `str(e)` says of a failed attempt. */
  function Message(a: Attempt, describe: nat -> string): string {
    match a case Response(code) => describe(code) case RequestError(message) => message
  }

  function Retries(setting: int): nat {
    if setting < 1 then 1 else setting
  }

  function UrlOf(data: Option<Fields>): Option<string> {
    if data.Some? && "callback_url" in data.value && data.value["callback_url"] != ""
    then Some(data.value["callback_url"]) else None
  }

  const BLOCKED: Fields :=
    map["callback_status" := "blocked", "callback_error" := "callback_url failed validation at send time"]

  /** The POSTs end with the first accepted one, or when the retries are used up. */
  predicate IsLast(attempt: nat -> Attempt, retries: nat, posts: nat) {
    && 1 <= posts <= retries
    && (forall k: nat :: k < posts - 1 ==> !Accepted(attempt(k)))
    && (Accepted(attempt(posts - 1)) || posts == retries)
  }

  function Outcome(attempt: nat -> Attempt, describe: nat -> string, posts: nat): Fields
    requires 1 <= posts
  {
    if Accepted(attempt(posts - 1)) then map["callback_status" := "delivered"]
    else map["callback_status" := "failed", "callback_error" := Message(attempt(posts - 1), describe)]
  }

  // ------------------------------------------------------------- the log tail

  predicate Truncated(log: string, limit: int) {
    0 < limit && limit < |log|
  }

  function LogTail(log: string, limit: int): string {
    if Truncated(log, limit) then log[|log| - limit..] else log
  }

  predicate IsSuffix(a: string, b: string) {
    |a| <= |b| && b[|b| - |a|..] == a
  }

  /** The tail is the longest suffix of the log within the limit; without a limit it
      is the whole log. The payload says it is truncated exactly if it is. */
  lemma TailIsLongestSuffix(log: string, limit: int)
    ensures var tail := LogTail(log, limit);
            && IsSuffix(tail, log)
            && (0 < limit ==> |tail| <= limit)
            && (forall other :: IsSuffix(other, log) && (0 < limit ==> |other| <= limit) ==> IsSuffix(other, tail))
            && (Truncated(log, limit) <==> tail != log)
  {
  }

  lemma TailLength(log: string, limit: int)
    ensures |LogTail(log, limit)| == if 0 < limit < |log| then limit else |log|
  {
  }

  // -------------------------------------------------------------- the payload

  /** What is POSTed; a receiver joins the URLs to the host it called. */
  datatype Payload = Payload(jobId: string, kind: string, status: Option<string>, target: Option<string>,
                             exitCode: Option<int>, logTail: string, logTruncated: bool, logUrl: string,
                             assets: Option<seq<string>>, files: Option<seq<string>>, artifactUrl: Option<string>)

  // `str(n)` and `int(s)` for decimal numbers, the only ones the store is given.

  predicate IsDigit(c: char) {
    '0' <= c <= '9'
  }

  function NatText(n: nat): (s: string)
    ensures s != "" && forall i :: 0 <= i < |s| ==> IsDigit(s[i])
  {
    (if n < 10 then "" else NatText(n / 10)) + [('0' as int + n % 10) as char]
  }

  function IntText(n: int): string {
    if n < 0 then "-" + NatText(-n) else NatText(n)
  }

  function ParseNat(s: string): Option<nat> {
    if s == "" || !IsDigit(s[|s| - 1]) then None
    else
      var last := s[|s| - 1] as int - '0' as int;
      if |s| == 1 then Some(last)
      else match ParseNat(s[..|s| - 1]) case Some(m) => Some(10 * m + last) case None => None
  }

  /** `_as_int`: None where there is no value, or it is no number. */
  function AsInt(value: Option<string>): Option<int> {
    match value
    case None => None
    case Some(s) =>
      var negative := s != "" && s[0] == '-';
      match ParseNat(if negative then s[1..] else s)
      case Some(m) => Some(if negative then 0 - m else m)
      case None => None
  }

  lemma {:induction false} NatComesBack(n: nat)
    ensures ParseNat(NatText(n)) == Some(n)
    decreases n
  {
    var s := NatText(n);
    if n >= 10 {
      NatComesBack(n / 10);
      assert s[..|s| - 1] == NatText(n / 10);
    }
  }

  /** An exit code that was stored comes back as the number it was. */
  lemma ExitCodeComesBack(n: int)
    ensures AsInt(Some(IntText(n))) == Some(n)
  {
    if n < 0 {
      NatComesBack(-n);
      assert IntText(n)[1..] == NatText(-n);
    } else {
      NatComesBack(n);
      assert IsDigit(NatText(n)[0]);
    }
  }

  // `s.split()`, of words that were joined by blanks.

  function NonEmpty(parts: seq<string>): seq<string> {
    if parts == [] then [] else (if parts[0] == "" then [] else [parts[0]]) + NonEmpty(parts[1..])
  }

  function WordsOf(s: string): seq<string> {
    NonEmpty(Split(s, ' '))
  }

  lemma {:induction false} NonEmptyStay(parts: seq<string>)
    requires forall i :: 0 <= i < |parts| ==> parts[i] != ""
    ensures NonEmpty(parts) == parts
    decreases |parts|
  {
    if parts != [] {
      NonEmptyStay(parts[1..]);
      assert parts == [parts[0]] + parts[1..];
    }
  }

  lemma AssetsComeBack(names: seq<string>)
    requires forall i :: 0 <= i < |names| ==> names[i] != "" && ' ' !in names[i]
    ensures WordsOf(Join(names, ' ')) == names
  {
    if names == [] {
      assert Split("", ' ') == [""] && [""][1..] == [];
    } else {
      SplitOfJoin(names, ' ');
      NonEmptyStay(names);
    }
  }

  function FieldOf(data: Fields, name: string): Option<string> {
    if name in data then Some(data[name]) else None
  }

  function Or(value: Option<string>, default: string): string {
    match value case Some(v) => v case None => default
  }

  const KINDS := ["build", "generate"]

  /** JOB_PREFIXES, without the slash in front. */
  function PrefixOf(kind: string): string {
    if kind == "generate" then "generate" else "builds"
  }

  function UrlFor(kind: string, jobId: string, what: string): string {
    Join(["", PrefixOf(kind), jobId, what], '/')
  }

  /** `_build_payload`; records written before there were kinds are builds. `loads`
      reads a stored list. */
  function PayloadOf(jobId: string, data: Fields, hasZip: bool, limit: int, loads: string -> seq<string>): Payload {
    var kind := Or(FieldOf(data, "kind"), "build");
    var log := Or(FieldOf(data, "log"), "");
    var files := Or(FieldOf(data, "files"), "");
    Payload(jobId, kind, FieldOf(data, "status"), FieldOf(data, "target"), AsInt(FieldOf(data, "exit_code")),
            LogTail(log, limit), Truncated(log, limit), UrlFor(kind, jobId, "log"),
            if kind == "generate" then Some(WordsOf(Or(FieldOf(data, "assets"), ""))) else None,
            if kind == "generate" then Some(if files == "" then [] else loads(files)) else None,
            if hasZip then Some(UrlFor(kind, jobId, "artifact")) else None)
  }

  /** How the API reads a URL: the kind its handler loads, the job and what of it. */
  function Route(url: string): Option<(string, string, string)> {
    var parts := Split(url, '/');
    if |parts| != 4 || parts[0] != "" then None
    else if parts[1] == "builds" then Some(("build", parts[2], parts[3]))
    else if parts[1] == "generate" then Some(("generate", parts[2], parts[3]))
    else None
  }

  lemma UrlLeadsBack(kind: string, jobId: string, what: string)
    requires kind in KINDS && '/' !in jobId && '/' !in what
    ensures Route(UrlFor(kind, jobId, what)) == Some((kind, jobId, what))
  {
    var parts := ["", PrefixOf(kind), jobId, what];
    assert '/' !in parts[1];
    SplitOfJoin(parts, '/');
  }

  /** The URLs in a payload lead to the job's own log and artifact, under the prefix that
      answers for its kind; and the artifact's is there exactly if there is a zip. */
  lemma PayloadLeadsBack(jobId: string, data: Fields, hasZip: bool, limit: int, loads: string -> seq<string>)
    requires '/' !in jobId && ("kind" in data ==> data["kind"] in KINDS)
    ensures var p := PayloadOf(jobId, data, hasZip, limit, loads);
            && p.kind == Or(FieldOf(data, "kind"), "build")
            && Route(p.logUrl) == Some((p.kind, jobId, "log"))
            && (p.artifactUrl.Some? <==> hasZip)
            && (hasZip ==> Route(p.artifactUrl.value) == Some((p.kind, jobId, "artifact")))
  {
    UrlLeadsBack(PayloadOf(jobId, data, hasZip, limit, loads).kind, jobId, "log");
    UrlLeadsBack(PayloadOf(jobId, data, hasZip, limit, loads).kind, jobId, "artifact");
  }

  /** The payload tells what was recorded: whose record it is, status and target; the
      exit code as a number, or none; and the longest end of the log that the limit
      allows, with a flag if something is missing. */
  lemma PayloadTellsTheRecord(jobId: string, data: Fields, hasZip: bool, limit: int, loads: string -> seq<string>, code: int)
    ensures var p := PayloadOf(jobId, data, hasZip, limit, loads);
            && p.jobId == jobId && p.kind == (if "kind" in data then data["kind"] else "build")
            && p.status == (if "status" in data then Some(data["status"]) else None)
            && p.target == (if "target" in data then Some(data["target"]) else None)
            && ("exit_code" in data && data["exit_code"] == IntText(code) ==> p.exitCode == Some(code))
            && ("exit_code" !in data ==> p.exitCode == None)
    ensures var p := PayloadOf(jobId, data, hasZip, limit, loads);
            var log := if "log" in data then data["log"] else "";
            && |p.logTail| == (if 0 < limit < |log| then limit else |log|)
            && log[|log| - |p.logTail|..] == p.logTail
            && (p.logTruncated <==> p.logTail != log)
  {
    hide UrlFor, WordsOf, IntText, ParseNat, LogTail, Truncated;
    ExitCodeComesBack(code);
    TailIsLongestSuffix(Or(FieldOf(data, "log"), ""), limit);
    TailLength(Or(FieldOf(data, "log"), ""), limit);
  }

  /** And of a generate job, and of no other, the assets asked for and the files it listed. */
  lemma PayloadTellsTheAssets(jobId: string, data: Fields, hasZip: bool, limit: int, loads: string -> seq<string>,
                              names: seq<string>)
    requires forall i :: 0 <= i < |names| ==> names[i] != "" && ' ' !in names[i]
    ensures var p := PayloadOf(jobId, data, hasZip, limit, loads);
            && (p.assets.Some? <==> p.kind == "generate") && (p.files.Some? <==> p.kind == "generate")
            && (p.assets.Some? ==>
                  && ("assets" in data && data["assets"] == Join(names, ' ') ==> p.assets.value == names)
                  && ("assets" !in data ==> p.assets.value == []))
            && (p.files.Some? ==>
                  p.files.value == if "files" in data && data["files"] != "" then loads(data["files"]) else [])
  {
    hide UrlFor, WordsOf, AsInt, LogTail, Truncated;
    AssetsComeBack(names);
    AssetsComeBack([]);
  }

  // ------------------------------------------------------------- the attempts

  /** `now` is when the record is read, `later` when the outcome is written back. */
  method SendCallback(store: Store, jobId: string, allowed: bool, setting: int, attempt: nat -> Attempt,
                      describe: nat -> string, hasZip: bool, limit: int, loads: string -> seq<string>,
                      now: int, later: int)
    returns (posts: nat, sent: Option<Payload>)
    modifies store
    ensures var data := Seen(old(store.entries), jobId, now);
            if data.None? || "callback_url" !in data.value || data.value["callback_url"] == "" then
              posts == 0 && sent.None? && store.entries == old(store.entries)
            else if !allowed then
              && posts == 0 && sent.None? && BLOCKED["callback_status"] == "blocked"
              && store.entries == Written(old(store.entries), Key(jobId), BLOCKED, later)
            else
              && sent == Some(PayloadOf(jobId, data.value, hasZip, limit, loads))
              && IsLast(attempt, Retries(setting), posts)
              && store.entries == Written(old(store.entries), Key(jobId), Outcome(attempt, describe, posts), later)
  {
    hide PayloadOf, Message;
    posts, sent := 0, None;
    var data := store.Get(jobId, now);
    if data.None? { return; }
    var url := UrlOf(data);
    if url.None? { return; }
    if !allowed {
      assert "callback_status" in BLOCKED;
      store.Update(jobId, BLOCKED, later);
      return;
    }
    sent := Some(PayloadOf(jobId, data.value, hasZip, limit, loads));
    var retries := Retries(setting);
    var lastError := "";
    while posts < retries
      invariant posts <= retries
      invariant store.entries == old(store.entries)
      invariant forall k: nat :: k < posts ==> !Accepted(attempt(k))
      invariant posts == 0 || lastError == Message(attempt(posts - 1), describe)
    {
      var answer := attempt(posts);
      posts := posts + 1;
      if Accepted(answer) {
        var delivered: Fields := map["callback_status" := "delivered"];
        assert "callback_status" in delivered;
        store.Update(jobId, delivered, later);
        return;
      }
      lastError := Message(answer, describe);
    }
    var failed: Fields := map["callback_status" := "failed", "callback_error" := lastError];
    assert "callback_status" in failed;
    store.Update(jobId, failed, later);
  }

  /** The number of POSTs is determined, and "delivered" is recorded exactly if one
      of the attempts that are allowed at all, and one is always, would be answered
      without a client's or a server's error. What is recorded else is "failed", with
      the message of the last allowed attempt. */
  lemma DeliveredIffAccepted(attempt: nat -> Attempt, describe: nat -> string, setting: int, posts: nat)
    requires IsLast(attempt, Retries(setting), posts)
    ensures var report := Outcome(attempt, describe, posts);
            && "callback_status" in report && report["callback_status"] in {"delivered", "failed"}
            && (report["callback_status"] == "delivered" <==>
                  exists k: nat :: (k < setting || k == 0) && attempt(k).Response? && !(400 <= attempt(k).code < 600))
            && (report["callback_status"] == "failed" ==>
                  && posts == (if setting < 1 then 1 else setting)
                  && "callback_error" in report
                  && match attempt(posts - 1)
                     case Response(code) => report["callback_error"] == describe(code)
                     case RequestError(message) => report["callback_error"] == message)
    ensures forall other: nat :: IsLast(attempt, Retries(setting), other) ==> other == posts
  {
    if exists k: nat :: (k < setting || k == 0) && attempt(k).Response? && !(400 <= attempt(k).code < 600) {
      var k: nat :| (k < setting || k == 0) && attempt(k).Response? && !(400 <= attempt(k).code < 600);
      assert Accepted(attempt(k)) && k < Retries(setting);
    }
  }

  // ------------------------------------------------ a callback that comes late

  /** The outcome that is written back outlives the record exactly if it is written
      after the expiry: a callback that is still being retried then leaves a record
      without `kind` and `status` that never expires. */
  lemma LateCallbackLeavesARemnant(entries: Entries, jobId: string, report: Fields, later: int, anytime: int)
    requires Key(jobId) in entries && entries[Key(jobId)].expiresAt.Some? && report != map[]
    requires later <= anytime && entries[Key(jobId)].expiresAt.value <= anytime
    ensures Seen(Written(entries, Key(jobId), report, later), jobId, anytime) ==
            if entries[Key(jobId)].expiresAt.value <= later then Some(report) else None
  {
  }
}
