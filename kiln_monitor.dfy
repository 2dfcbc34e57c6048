/**
 * The request handlers of kiln-monitor.py around the monitor: the parsing of
 * the "mailto" field of a RUN message, the profile lookup, the profile store
 * and its overwrite rule, the HTTP /api handler, and the RUN and STOP
 * messages of the control websocket. The oven, the files, the e-mail and the
 * sockets are not modelled as such: what the handlers ask of them is
 * returned as a sequence of actions, the profile directory is a map from
 * paths to profiles, and json.dumps / json.loads are the identity on
 * profiles.
 */
module KilnMonitor {
  import opened Wrappers
  import opened Text
  import opened OvenMonitorModel
  import Analysis

  // ---------------------------------------------------------------------------
  // The "mailto" field of a RUN message

  /**
   * msgdict.get('mailto', '') with the spaces removed, split on commas and
   * the empty pieces dropped; None stands for a message without the field.
   */
  function ParseMailto(mailto: Option<string>): seq<string>
  {
    DropEmpty(Split(RemoveChar(mailto.GetOr(""), ' '), ','))
  }

  /** What a parsed recipient looks like. */
  predicate Address(e: string) { e != "" && ' ' !in e && ',' !in e }

  /** Every parsed recipient is non-empty and holds no space and no comma; no field gives no recipient. */
  lemma MailtoEntries(mailto: Option<string>)
    ensures forall i :: 0 <= i < |ParseMailto(mailto)| ==> Address(ParseMailto(mailto)[i])
    ensures mailto.None? ==> ParseMailto(mailto) == []
  {
    var cleaned := RemoveChar(mailto.GetOr(""), ' ');
    RemoveCharMembers(mailto.GetOr(""), ' ');
    var parts := Split(cleaned, ',');
    SplitChars(cleaned, ',');
    var r := DropEmpty(parts);
    forall i | 0 <= i < |r|
      ensures Address(r[i])
    {
      var k :| 0 <= k < |parts| && parts[k] == r[i];
      assert ' ' !in cleaned;
      assert ' ' in parts[k] ==> ' ' in cleaned;
    }
  }

  /** Removing the spaces from a ", "-join of space-free pieces leaves them joined by ",". */
  lemma {:induction false} RemoveSpacesJoin(parts: seq<string>)
    requires forall i :: 0 <= i < |parts| ==> ' ' !in parts[i]
    ensures RemoveChar(Join(parts, ", "), ' ') == Join(parts, ",")
  {
    if |parts| == 1 {
      RemoveCharAbsent(parts[0], ' ');
    } else if |parts| > 1 {
      var head, tail := parts[0], parts[1..];
      assert forall i :: 0 <= i < |tail| ==> tail[i] == parts[i + 1];
      RemoveSpacesJoin(tail);
      RemoveCharAbsent(head, ' ');
      var rest := Join(tail, ", ");
      JoinCons(parts, ", ");
      JoinCons(parts, ",");
      RemoveCharAppend(head, ", " + rest, ' ');
      RemoveCharAppend(", ", rest, ' ');
      assert RemoveChar(", ", ' ') == ",";
    }
  }

  /** The ", ".join of the report's To header parses back into the same recipients. */
  lemma MailtoRoundTrip(emails: seq<string>)
    requires forall i :: 0 <= i < |emails| ==> Address(emails[i])
    ensures ParseMailto(Some(Join(emails, ", "))) == emails
  {
    if |emails| == 0 {
      assert RemoveChar("", ' ') == "";
    } else {
      RemoveSpacesJoin(emails);
      SplitJoin(emails, ',');
    }
  }

  /** Parsing the joined recipients again changes nothing. */
  lemma MailtoIdempotent(mailto: Option<string>)
    ensures ParseMailto(Some(Join(ParseMailto(mailto), ", "))) == ParseMailto(mailto)
  {
    MailtoEntries(mailto);
    MailtoRoundTrip(ParseMailto(mailto));
  }

  // ---------------------------------------------------------------------------
  // find_profile

  /** The first profile with the wanted name. */
  function FirstMatch(profiles: seq<Profile>, wanted: string): Option<Profile>
  {
    if |profiles| == 0 then None
    else if profiles[0].name == wanted then Some(profiles[0])
    else FirstMatch(profiles[1..], wanted)
  }

  /** None exactly when no profile has the name; otherwise the earliest that has it. */
  lemma {:induction false} FirstMatchMeaning(profiles: seq<Profile>, wanted: string)
    ensures FirstMatch(profiles, wanted).None? <==> forall i :: 0 <= i < |profiles| ==> profiles[i].name != wanted
    ensures FirstMatch(profiles, wanted).Some? ==>
      exists i :: 0 <= i < |profiles| && profiles[i] == FirstMatch(profiles, wanted).value &&
        profiles[i].name == wanted && forall j :: 0 <= j < i ==> profiles[j].name != wanted
  {
    if |profiles| > 0 {
      var tail := profiles[1..];
      FirstMatchMeaning(tail, wanted);
      assert forall i :: 1 <= i < |profiles| ==> profiles[i] == tail[i - 1];
      if profiles[0].name != wanted && FirstMatch(tail, wanted).Some? {
        var i :| 0 <= i < |tail| && tail[i] == FirstMatch(tail, wanted).value &&
          tail[i].name == wanted && forall j :: 0 <= j < i ==> tail[j].name != wanted;
        assert profiles[i + 1] == tail[i];
      }
    }
  }

  /** find_profile(wanted) over the loaded profiles: scan in order, return the first match. */
  method FindProfile(profiles: seq<Profile>, wanted: string) returns (r: Option<Profile>)
    ensures r == FirstMatch(profiles, wanted)
  {
    var i := 0;
    while i < |profiles|
      invariant 0 <= i <= |profiles|
      invariant FirstMatch(profiles, wanted) == FirstMatch(profiles[i..], wanted)
    {
      assert profiles[i..][1..] == profiles[i + 1..];
      if profiles[i].name == wanted {
        return Some(profiles[i]);
      }
      i := i + 1;
    }
    r := None;
  }

  // ---------------------------------------------------------------------------
  // The profile store

  /** os.path.join(a, b): an absolute b replaces a; otherwise one '/' between them. */
  function PathJoin(a: string, b: string): string
  {
    if |b| > 0 && b[0] == '/' then b
    else if a == "" || a[|a| - 1] == '/' then a + b
    else a + "/" + b
  }

  /** The file a profile is stored in: profile_path/<name>.json. */
  function ProfileFile(dir: string, name: string): string
  {
    PathJoin(dir, name + ".json")
  }

  /** The directory part of a join with a relative name. */
  function JoinPrefix(a: string): string
  {
    if a == "" || a[|a| - 1] == '/' then a else a + "/"
  }

  lemma ProfileFileShape(dir: string, name: string)
    requires |name| == 0 || name[0] != '/'
    ensures ProfileFile(dir, name) == JoinPrefix(dir) + name + ".json"
  {
    assert (name + ".json")[0] == if |name| > 0 then name[0] else '.';
  }

  /** Distinct relative names are stored in distinct files inside the directory. */
  lemma ProfileFileInjective(dir: string, a: string, b: string)
    requires |a| == 0 || a[0] != '/'
    requires |b| == 0 || b[0] != '/'
    requires ProfileFile(dir, a) == ProfileFile(dir, b)
    ensures a == b
  {
    ProfileFileShape(dir, a);
    ProfileFileShape(dir, b);
    var p := JoinPrefix(dir);
    var fa, fb := p + a + ".json", p + b + ".json";
    assert |a| == |b|;
    assert a == fa[|p|..|p| + |a|];
    assert b == fb[|p|..|p| + |b|];
  }

  /** The profiles on disk, by path; a path is taken for existing when it is a key. */
  class ProfileStore {
    const profilePath: string
    var files: map<string, Profile>

    constructor (profilePath: string, files: map<string, Profile>)
      ensures this.profilePath == profilePath && this.files == files
    {
      this.profilePath := profilePath;
      this.files := files;
    }

    /** save_profile(profile, force): refuse an existing file unless forced, else (over)write it. */
    method SaveProfile(profile: Profile, force: bool) returns (ok: bool)
      modifies this
      ensures ok <==> force || ProfileFile(profilePath, profile.name) !in old(files)
      ensures ok ==> files == old(files)[ProfileFile(profilePath, profile.name) := profile]
      ensures !ok ==> files == old(files)
    {
      var filepath := ProfileFile(profilePath, profile.name);
      if !force && filepath in files {
        return false;
      }
      files := files[filepath := profile];
      ok := true;
    }

    /**
     * The PUT message: no reply for a missing or empty profile; otherwise
     * save with force = True and reply with "resp" set to "OK" or "FAIL".
     */
    method Put(profile: Option<Profile>) returns (resp: Option<string>)
      modifies this
      ensures profile.None? ==> resp.None? && files == old(files)
      ensures profile.Some? ==> resp == Some("OK")
      ensures profile.Some? ==> files == old(files)[ProfileFile(profilePath, profile.value.name) := profile.value]
    {
      if profile.None? {
        return None;
      }
      var saved := SaveProfile(profile.value, true);
      resp := if saved then Some("OK") else Some("FAIL");
    }
  }

  // ---------------------------------------------------------------------------
  // What the handlers ask of the oven, the monitor, the disk and the mail

  datatype Action =
    | StartRun(profile: Profile, startat: Option<int>)   // oven.run_profile; None: the oven's own default
    | RecordRun(profile: Profile, emails: seq<string>)   // ovenMonitor.record
    | AbortRun                                           // oven.abort_run
    | SaveRecord(path: string)                           // save_record_to_file, path as it builds it
    | Analyse(dir: string)                               // analyse_results
    | SendReport(to: string, attachments: seq<string>, report: Analysis.Report)
                                                         // the report e-mail: To header, attached files, peaks

  // ---------------------------------------------------------------------------
  // POST /api

  /** The fields of the request body the handler reads; None: the key is missing. */
  datatype ApiRequest = ApiRequest(cmd: Option<string>, profile: Option<string>, startat: Option<int>)

  /** The JSON reply {"success": ..., "error": ...}. */
  datatype ApiReply = ApiReply(success: bool, error: Option<string>)

  /** A KeyError on the request body, which bottle turns into an error page. */
  datatype ApiError = MissingKey(key: string)

  datatype ApiOutcome = ApiOutcome(actions: seq<Action>, reply: Result<ApiReply, ApiError>)

  /** handle_api on a request, against the profiles on disk. */
  function HandleApi(req: ApiRequest, profiles: seq<Profile>): ApiOutcome
  {
    if req.cmd.None? then ApiOutcome([], Failure(MissingKey("cmd")))
    else if req.cmd.value == "run" then
      if req.profile.None? then ApiOutcome([], Failure(MissingKey("profile")))
      else
        var wanted := req.profile.value;
        var startat := req.startat.GetOr(0);
        match FirstMatch(profiles, wanted)
        case None => ApiOutcome([], Success(ApiReply(false, Some("profile " + wanted + " not found"))))
        case Some(p) => ApiOutcome([StartRun(p, Some(startat)), RecordRun(p, [])], Success(ApiReply(true, None)))
    else if req.cmd.value == "stop" then ApiOutcome([AbortRun], Success(ApiReply(true, None)))
    else ApiOutcome([], Success(ApiReply(true, None)))
  }

  /**
   * A run request for a profile on disk starts the earliest profile of that
   * name at the requested minute, 0 when none is given, and records it with
   * no recipients.
   */
  lemma ApiRunStarts(req: ApiRequest, profiles: seq<Profile>, i: nat)
    requires req.cmd == Some("run") && req.profile.Some?
    requires i < |profiles| && profiles[i].name == req.profile.value
    requires forall j :: 0 <= j < i ==> profiles[j].name != req.profile.value
    ensures HandleApi(req, profiles).reply == Success(ApiReply(true, None))
    ensures HandleApi(req, profiles).actions ==
      [StartRun(profiles[i], Some(if req.startat.Some? then req.startat.value else 0)), RecordRun(profiles[i], [])]
  {
    FirstMatchMeaning(profiles, req.profile.value);
    var p := FirstMatch(profiles, req.profile.value).value;
    var k :| 0 <= k < |profiles| && profiles[k] == p && profiles[k].name == req.profile.value &&
      forall j :: 0 <= j < k ==> profiles[j].name != req.profile.value;
    assert !(k < i) && !(i < k);
  }

  /** A run request for a name no profile has starts nothing and reports the name. */
  lemma ApiUnknownProfile(req: ApiRequest, profiles: seq<Profile>)
    requires req.cmd == Some("run") && req.profile.Some?
    requires forall j :: 0 <= j < |profiles| ==> profiles[j].name != req.profile.value
    ensures HandleApi(req, profiles).actions == []
    ensures HandleApi(req, profiles).reply == Success(ApiReply(false, Some("profile " + req.profile.value + " not found")))
  {
    FirstMatchMeaning(profiles, req.profile.value);
  }

  // ---------------------------------------------------------------------------
  // The control websocket: RUN and STOP

  /** The exceptions the control loop can end in; it catches none of them. */
  datatype ControlError =
    | UnboundProfile            // RUN without a profile before any RUN with one: the local is unbound
    | NoSendEmailStart          // OvenMonitor defines no send_email_start
    | NoEmailDestination        // STOP before any record(): the attribute does not exist
    | AnalysisFailed(error: Analysis.AnalysisError)  // analyse_results raised inside send_email_report

  /** How handling one message ends: the loop goes on, or an uncaught exception ends the handler. */
  datatype Ending = Continue | Crashed(error: ControlError)

  datatype Handled = Handled(actions: seq<Action>, ending: Ending)

  /** The (runtime, temperature) pairs analyse_results reads from last_log. */
  function LogPoints(log: seq<Sample>): (r: seq<(real, real)>)
    ensures |r| == |log|
    ensures forall i :: 0 <= i < |log| ==> r[i] == (log[i].runtime, log[i].temperature)
  {
    seq(|log|, i requires 0 <= i < |log| => (log[i].runtime, log[i].temperature))
  }

  /**
   * STOP: abort the run; with recipients, send_email_report saves the record,
   * analyses it and mails the plots and the record with the peaks, or ends in
   * the exception the analysis raised; without, only save_record_to_file runs.
   * `analysis` is what analyse_results gives on the record.
   */
  function StopHandled(emails: Option<seq<string>>, started: Option<DateTime>, history: string,
                       analysis: Result<Analysis.AnalysisResult, Analysis.AnalysisError>): Handled
    requires emails.Some? ==> started.Some? && ValidDateTime(started.value)
  {
    if emails.None? then Handled([AbortRun], Crashed(NoEmailDestination))
    else
      var path := RecordFileName(history, started.value);
      if |emails.value| > 0 then
        match analysis
        case Failure(err) => Handled([AbortRun, SaveRecord(path), Analyse(history)], Crashed(AnalysisFailed(err)))
        case Success(res) =>
          Handled([AbortRun, SaveRecord(path), Analyse(history),
                   SendReport(Join(emails.value, ", "), res.plots + [path], res.report)], Continue)
      else Handled([AbortRun, SaveRecord(path)], Continue)
  }

  /**
   * A STOP after a RUN whose recipients were parsed from mailto saves the
   * record before analysing it; when the analysis goes through it mails the
   * plots and the saved record, with the peaks, to exactly those recipients.
   * Without recipients it only saves, and the loop goes on.
   */
  lemma StopMailsRecipients(mailto: Option<string>, started: DateTime, history: string,
                            analysis: Result<Analysis.AnalysisResult, Analysis.AnalysisError>)
    requires ValidDateTime(started)
    ensures var h := StopHandled(Some(ParseMailto(mailto)), Some(started), history, analysis);
      var path := RecordFileName(history, started);
      h.actions[0] == AbortRun && h.actions[1] == SaveRecord(path) &&
      (|ParseMailto(mailto)| > 0 && analysis.Success? ==>
         h.ending == Continue && |h.actions| == 4 && h.actions[2] == Analyse(history) &&
         h.actions[3].SendReport? && ParseMailto(Some(h.actions[3].to)) == ParseMailto(mailto) &&
         h.actions[3].attachments == analysis.value.plots + [path] &&
         h.actions[3].report == analysis.value.report) &&
      (|ParseMailto(mailto)| > 0 && analysis.Failure? ==>
         h == Handled([AbortRun, SaveRecord(path), Analyse(history)], Crashed(AnalysisFailed(analysis.error)))) &&
      (|ParseMailto(mailto)| == 0 ==> h == Handled([AbortRun, SaveRecord(path)], Continue))
  {
    MailtoIdempotent(mailto);
  }

  /**
   * STOP with recipients right after RUN, before any sample was added to the
   * one record() takes, ends the handler: interp1d cannot be built on one point.
   */
  lemma StopAfterOneSampleCrashes(emails: seq<string>, started: DateTime, history: string, current: Sample,
                                  settings: map<string, real>, interpolate: Analysis.Interpolator,
                                  convolve: (seq<real>, nat) -> seq<real>)
    requires ValidDateTime(started) && |emails| > 0
    ensures StopHandled(Some(emails), Some(started), history,
                        Analysis.AnalyseResults(LogPoints([current]), settings, history, interpolate, convolve)).ending
      == Crashed(AnalysisFailed(Analysis.TooFewSamples))
  {
    Analysis.AnalyseShortRecord(LogPoints([current]), settings, history, interpolate, convolve);
  }

  /**
   * The control websocket's handler. `profile` is the handler's local
   * variable, which keeps its value from one message to the next.
   */
  class ControlSession {
    const monitor: OvenMonitor
    var profile: Option<Profile>

    ghost predicate Valid()
      reads this, monitor
    {
      monitor.Valid()
    }

    constructor (monitor: OvenMonitor)
      requires monitor.Valid()
      ensures Valid() && this.monitor == monitor && profile == None
    {
      this.monitor := monitor;
      profile := None;
    }

    /**
     * RUN: parse the recipients, take the message's profile if it has a
     * non-empty one (else the one kept from an earlier RUN), start it,
     * record it, and attempt the start e-mail when there are recipients.
     */
    method Run(msgProfile: Option<Profile>, mailto: Option<string>, now: DateTime, current: Sample)
      returns (h: Handled)
      requires Valid() && ValidDateTime(now)
      modifies this, monitor
      ensures Valid()
      ensures profile == if msgProfile.Some? then msgProfile else old(profile)
      ensures profile.None? ==> h == Handled([], Crashed(UnboundProfile)) && unchanged(monitor)
      ensures profile.Some? ==>
        h.actions == [StartRun(profile.value, None), RecordRun(profile.value, ParseMailto(mailto))] &&
        monitor.lastProfile == profile && monitor.lastLog == [current] && monitor.started == Some(now) &&
        monitor.recording && monitor.emailDestination == Some(ParseMailto(mailto)) &&
        monitor.observers == old(monitor.observers)
      ensures profile.Some? ==> (h.ending == Crashed(NoSendEmailStart) <==> |ParseMailto(mailto)| > 0)
      ensures profile.Some? ==> (h.ending == Continue <==> |ParseMailto(mailto)| == 0)
    {
      var emails := ParseMailto(mailto);
      if msgProfile.Some? {
        profile := msgProfile;
      }
      if profile.None? {
        return Handled([], Crashed(UnboundProfile));
      }
      var p := profile.value;
      monitor.Record(p, emails, now, current);
      var actions := [StartRun(p, None), RecordRun(p, emails)];
      if |monitor.emailDestination.value| > 0 {
        h := Handled(actions, Crashed(NoSendEmailStart));
      } else {
        h := Handled(actions, Continue);
      }
    }

    /**
     * STOP: abort the run, then save, analyse and report, or only save, as
     * StopHandled says; the linear interpolation and the convolution are
     * those analyse_results is given.
     */
    method Stop(history: string, interpolate: Analysis.Interpolator, convolve: (seq<real>, nat) -> seq<real>)
      returns (h: Handled)
      requires Valid()
      ensures h == StopHandled(monitor.emailDestination, monitor.started, history,
                               Analysis.AnalyseResults(LogPoints(monitor.lastLog), monitor.analysisSettings,
                                                       history, interpolate, convolve))
    {
      if monitor.emailDestination.None? {
        return Handled([AbortRun], Crashed(NoEmailDestination));
      }
      var save := monitor.SaveRecordToFile(history);
      var path := save.value.0;
      var emails := monitor.emailDestination.value;
      if |emails| > 0 {
        var analysis := Analysis.AnalyseResults(LogPoints(save.value.1), monitor.analysisSettings,
                                                history, interpolate, convolve);
        match analysis
        case Failure(err) =>
          h := Handled([AbortRun, SaveRecord(path), Analyse(history)], Crashed(AnalysisFailed(err)));
        case Success(res) =>
          h := Handled([AbortRun, SaveRecord(path), Analyse(history),
                        SendReport(Join(emails, ", "), res.plots + [path], res.report)], Continue);
      } else {
        h := Handled([AbortRun, SaveRecord(path)], Continue);
      }
    }
  }
}
