/**
 * The certificate import loop of the WatchGuard uploader: for each path on
 * the command line, in order, skip it if it does not exist, decide whether
 * it is a PFX archive, skip a PFX when no unlock password was given, and
 * otherwise send the import command followed by the FTP username and the
 * FTP password, keeping only the verdict on the last response.
 *
 * The filesystem is a set of existing paths and the appliance is an oracle
 * from the lines sent so far to the text it answers to the last of them.
 */
module Uploader {
  import opened Wrappers
  import opened Text
  import opened Credentials

  /** The parsed command-line values the loop reads. */
  datatype Options = Options(
    certs: seq<string>,
    ftpHost: string,
    ftpPort: int,
    pfxPassword: Option<string>)

  /** What the loop cannot see: which paths exist and what the appliance answers. */
  datatype Environment = Environment(
    existing: set<string>,
    respond: seq<string> -> string)

  /** Python truthiness of `--pfx-password`: absent and empty both count as not given. */
  predicate HasPfxPassword(o: Options)
  {
    o.pfxPassword.Some? && o.pfxPassword.value != ""
  }

  const ImportPrefix: string := "import certificate general-usage from ftp://"
  const ErrorMarker: string := "Error"
  const SuccessPrefix: string := "Certificates uploaded and "
  const ClosedMessage: string := "WatchGuard session closed successfully."

  /** The fetch URL embeds the certificate path exactly as given, not its basename. */
  function FetchCommand(o: Options, cert: string): (command: string)
  {
    ImportPrefix + o.ftpHost + ":" + DecimalString(o.ftpPort) + "/" + cert
  }

  /** The file kind test: the lowercased basename ends in ".pfx". */
  predicate IsPfx(cert: string)
  {
    EndsWith(Lower(Basename(cert)), ".pfx")
  }

  /** What the loop does with one certificate. */
  datatype Decision = Missing | PfxWithoutPassword | Import(command: string)

  function Decide(o: Options, existing: set<string>, cert: string): (d: Decision)
    ensures d.Missing? <==> cert !in existing
    ensures d.PfxWithoutPassword? <==> cert in existing && IsPfx(cert) && !HasPfxPassword(o)
    ensures d.Import? ==> StartsWith(d.command, FetchCommand(o, cert))
  {
    if cert !in existing then Missing
    else if IsPfx(cert) then
      if HasPfxPassword(o) then Import(FetchCommand(o, cert) + " " + o.pfxPassword.value)
      else PfxWithoutPassword
    else Import(FetchCommand(o, cert))
  }

  /** The value `result_str` takes after a certificate's final response. */
  function Verdict(response: string): (r: string)
    ensures r == "" || r == SuccessPrefix
  {
    if Contains(response, ErrorMarker) then "" else SuccessPrefix
  }

  /** A response is a failure exactly when "Error" occurs in it, anywhere. */
  lemma VerdictIffErrorOccurs(response: string)
    ensures Verdict(response) == "" <==> exists i :: OccursAt(response, "Error", i)
    ensures Verdict(response) != "" ==> Verdict(response) == "Certificates uploaded and "
  {
    ContainsIffOccurs(response, ErrorMarker);
  }

  /**
   * The loop's state: the lines sent to the appliance, the lines printed,
   * and `result_str`, which is `None` while it has never been assigned.
   */
  datatype Progress = Progress(sent: seq<string>, printed: seq<string>, result: Option<string>)

  const Start: Progress := Progress([], [], None)

  /** One pass of the loop body. */
  function Step(o: Options, env: Environment, cred: FtpCredentials, p: Progress, cert: string): (q: Progress)
    ensures |q.sent| == |p.sent| + (if Decide(o, env.existing, cert).Import? then 3 else 0)
    ensures p.sent <= q.sent && p.printed <= q.printed
    ensures q.result == p.result || q.result.Some?
  {
    match Decide(o, env.existing, cert)
    case Missing =>
      p.(printed := p.printed + ["Certificate " + cert + " does not exist."])
    case PfxWithoutPassword =>
      p.(printed := p.printed + ["Skipping PFX " + Basename(cert) + " because no --pfx-password provided."])
    case Import(command) =>
      var sent := p.sent + [command, cred.username, cred.password];
      var response := env.respond(sent);
      Progress(
        sent,
        p.printed + ["Sending: " + command] + (if Contains(response, ErrorMarker) then [response] else []),
        Some(Verdict(response)))
  }

  /** The state after the loop has gone through `certs` in order. */
  function Run(o: Options, env: Environment, cred: FtpCredentials, certs: seq<string>): (p: Progress)
    ensures |p.sent| <= 3 * |certs|
    ensures p.result.None? <==> p.sent == []
    decreases |certs|
  {
    if certs == [] then Start
    else Step(o, env, cred, Run(o, env, cred, certs[..|certs| - 1]), certs[|certs| - 1])
  }

  /** The import transaction a certificate contributes: three lines or none. */
  function Transaction(o: Options, existing: set<string>, cred: FtpCredentials, cert: string): seq<string>
  {
    match Decide(o, existing, cert)
    case Import(command) => [command, cred.username, cred.password]
    case _ => []
  }

  /** The concatenation of the certificates' transactions, first certificate first. */
  function Transcript(o: Options, existing: set<string>, cred: FtpCredentials, certs: seq<string>): seq<string>
    decreases |certs|
  {
    if certs == [] then [] else Transaction(o, existing, cred, certs[0]) + Transcript(o, existing, cred, certs[1..])
  }

  /** The `for cert in args.certs` loop of `main`, with its `continue`-based skips. */
  method ImportCerts(o: Options, env: Environment, cred: FtpCredentials) returns (p: Progress)
    ensures p == Run(o, env, cred, o.certs)
  {
    var sent: seq<string> := [];
    var printed: seq<string> := [];
    var result: Option<string> := None;
    for i := 0 to |o.certs|
      invariant Progress(sent, printed, result) == Run(o, env, cred, o.certs[..i])
    {
      var cert := o.certs[i];
      assert o.certs[..i + 1][..i] == o.certs[..i];
      ghost var next := Step(o, env, cred, Progress(sent, printed, result), cert);
      assert Run(o, env, cred, o.certs[..i + 1]) == next;
      ghost var d := Decide(o, env.existing, cert);
      var filename := Basename(cert);
      if cert !in env.existing {
        assert d == Missing;
        printed := printed + ["Certificate " + cert + " does not exist."];
        assert Progress(sent, printed, result) == next;
        continue;
      }
      var command: string;
      if EndsWith(Lower(filename), ".pfx") {
        if HasPfxPassword(o) {
          command := FetchCommand(o, cert) + " " + o.pfxPassword.value;
        } else {
          assert d == PfxWithoutPassword;
          printed := printed + ["Skipping PFX " + filename + " because no --pfx-password provided."];
          assert Progress(sent, printed, result) == next;
          continue;
        }
      } else {
        command := FetchCommand(o, cert);
      }
      assert d == Import(command);
      printed := printed + ["Sending: " + command];
      // The appliance's answers to the command and to the username are not read.
      ghost var before := sent;
      sent := sent + [command];
      sent := sent + [cred.username];
      sent := sent + [cred.password];
      assert sent == before + [command, cred.username, cred.password];
      var response := env.respond(sent);
      if Contains(response, ErrorMarker) {
        printed := printed + [response];
        result := Some("");
      } else {
        result := Some(SuccessPrefix);
      }
      assert Progress(sent, printed, result) == next;
    }
    assert o.certs[..|o.certs|] == o.certs;
    p := Progress(sent, printed, result);
  }

  /** How the run ends at the final `print` of `main`. */
  datatype Summary = Closed(line: string) | UnboundResult

  function Summarize(result: Option<string>): (s: Summary)
    ensures s.UnboundResult? <==> result.None?
    ensures s.Closed? ==> s.line == result.value + ClosedMessage
  {
    match result
    case None => UnboundResult
    case Some(prefix) => Closed(prefix + ClosedMessage)
  }

  /**
   * The loop followed by the session teardown and the final message: "exit"
   * is the last line sent, and the final line is printed only when
   * `result_str` was bound.
   */
  method Upload(o: Options, env: Environment, cred: FtpCredentials)
    returns (sent: seq<string>, printed: seq<string>, summary: Summary)
    ensures sent == Transcript(o, env.existing, cred, o.certs) + ["exit"]
    ensures summary == Summarize(Run(o, env, cred, o.certs).result)
    ensures printed == Run(o, env, cred, o.certs).printed + (if summary.Closed? then [summary.line] else [])
  {
    var p := ImportCerts(o, env, cred);
    RunSentIsTranscript(o, env, cred, o.certs);
    sent := p.sent + ["exit"];
    summary := Summarize(p.result);
    printed := p.printed;
    if summary.Closed? {
      printed := printed + [summary.line];
    }
  }

  // ---------------------------------------------------------------------------
  // Commands and skip rules

  /** A certificate that is not a PFX is fetched by its path as given, with nothing appended. */
  lemma PlainCertCommand(o: Options, existing: set<string>, cert: string)
    requires cert in existing && !IsPfx(cert)
    ensures Decide(o, existing, cert)
      == Import("import certificate general-usage from ftp://" + o.ftpHost + ":" + DecimalString(o.ftpPort) + "/" + cert)
  {
  }

  /** A PFX with a non-empty unlock password gets that password as a trailing token. */
  lemma PfxCertCommand(o: Options, existing: set<string>, cert: string, password: string)
    requires cert in existing && IsPfx(cert)
    requires o.pfxPassword == Some(password) && password != ""
    ensures Decide(o, existing, cert)
      == Import("import certificate general-usage from ftp://" + o.ftpHost + ":" + DecimalString(o.ftpPort) + "/" + cert + " " + password)
  {
  }

  /** A PFX with no password, or an empty one, is skipped. */
  lemma PfxWithoutPasswordSkipped(o: Options, existing: set<string>, cert: string)
    requires cert in existing && IsPfx(cert)
    requires o.pfxPassword == None || o.pfxPassword == Some("")
    ensures Decide(o, existing, cert) == PfxWithoutPassword
  {
  }

  /** The existence test comes first: a missing path is skipped whatever its kind. */
  lemma MissingCertSkipped(o: Options, existing: set<string>, cert: string)
    requires cert !in existing
    ensures Decide(o, existing, cert) == Missing
  {
  }

  /** A certificate is imported exactly when it exists and is not a password-less PFX. */
  lemma ImportIff(o: Options, existing: set<string>, cert: string)
    ensures Decide(o, existing, cert).Import? <==> cert in existing && (!IsPfx(cert) || HasPfxPassword(o))
  {
  }

  /** The last four characters of `s` are '.', then p or P, then f or F, then x or X. */
  predicate PfxTail(s: string)
  {
    var n := |s|;
    n >= 4 && s[n - 4] == '.'
      && (s[n - 3] == 'p' || s[n - 3] == 'P')
      && (s[n - 2] == 'f' || s[n - 2] == 'F')
      && (s[n - 1] == 'x' || s[n - 1] == 'X')
  }

  lemma EndsWithPfxIgnoresCase(s: string)
    ensures EndsWith(Lower(s), ".pfx") <==> PfxTail(s)
  {
    var n := |s|;
    if n >= 4 {
      assert Lower(s)[n - 4..] == [LowerChar(s[n - 4]), LowerChar(s[n - 3]), LowerChar(s[n - 2]), LowerChar(s[n - 1])];
    }
  }

  /**
   * The kind test ignores case: it looks at the last four characters of the
   * basename, each of which may be upper or lower case.
   */
  lemma IsPfxIgnoresCase(cert: string)
    ensures IsPfx(cert) <==> PfxTail(Basename(cert))
  {
    EndsWithPfxIgnoresCase(Basename(cert));
  }

  /** The basename test agrees with the same test on the whole path. */
  lemma IsPfxOnWholePath(cert: string)
    ensures IsPfx(cert) <==> EndsWith(Lower(cert), ".pfx")
  {
    EndsWithPfxIgnoresCase(Basename(cert));
    EndsWithPfxIgnoresCase(cert);
    PfxTailOfBasename(cert);
  }

  lemma PfxTailOfBasename(cert: string)
    ensures PfxTail(Basename(cert)) <==> PfxTail(cert)
  {
    var n := |cert|;
    var k := LastSlash(cert, n);
    var name := Basename(cert);
    assert |name| == n - (k + 1);
    forall j | 0 <= j < |name|
      ensures name[j] == cert[k + 1 + j]
    {
    }
    if k >= n - 4 && k >= 0 {
      assert cert[k] == '/';
    }
  }

  /** Only the basename decides the kind: a directory named like a PFX does not make a file one. */
  lemma IsPfxDependsOnBasename(dir: string, name: string)
    requires '/' !in name
    ensures IsPfx(dir + "/" + name) <==> IsPfx(name)
  {
    BasenameOfPlainName(name);
    BasenameAfterSlash(dir, name);
  }

  lemma {:induction false} BasenameAfterSlash(dir: string, name: string)
    requires '/' !in name
    ensures Basename(dir + "/" + name) == name
    decreases |name|
  {
    var path := dir + "/" + name;
    if name == [] {
      assert path[|path| - 1] == '/';
    } else {
      assert path[..|path| - 1] == dir + "/" + name[..|name| - 1];
      BasenameAfterSlash(dir, name[..|name| - 1]);
      assert name[..|name| - 1] + [name[|name| - 1]] == name;
    }
  }

  // ---------------------------------------------------------------------------
  // What is sent, and in which order

  /**
   * A skipped certificate sends nothing, leaves `result_str` alone and
   * prints one line saying why.
   */
  lemma SkippedCertLeavesState(o: Options, env: Environment, cred: FtpCredentials, certs: seq<string>, cert: string)
    requires !Decide(o, env.existing, cert).Import?
    ensures var before := Run(o, env, cred, certs);
      var after := Run(o, env, cred, certs + [cert]);
      after.sent == before.sent && after.result == before.result
      && after.printed == before.printed + [
        if cert !in env.existing then "Certificate " + cert + " does not exist."
        else "Skipping PFX " + Basename(cert) + " because no --pfx-password provided."]
  {
  }

  /**
   * An imported certificate appends its command, the FTP username and the
   * FTP password, in that order; it prints the command, and the appliance's
   * answer to the password when that answer contains "Error"; and it sets
   * `result_str` from that answer.
   */
  lemma ImportedCertSendsThreeLines(o: Options, env: Environment, cred: FtpCredentials, certs: seq<string>, cert: string)
    requires Decide(o, env.existing, cert).Import?
    ensures var before := Run(o, env, cred, certs);
      var after := Run(o, env, cred, certs + [cert]);
      var command := Decide(o, env.existing, cert).command;
      var response := env.respond(after.sent);
      after.sent == before.sent + [command, cred.username, cred.password]
      && after.printed == before.printed + ["Sending: " + command]
        + (if Contains(response, "Error") then [response] else [])
      && after.result == Some(if Contains(response, "Error") then "" else "Certificates uploaded and ")
  {
  }

  lemma {:induction false} TranscriptAppend(o: Options, existing: set<string>, cred: FtpCredentials, certs: seq<string>, cert: string)
    ensures Transcript(o, existing, cred, certs + [cert])
      == Transcript(o, existing, cred, certs) + Transaction(o, existing, cred, cert)
    decreases |certs|
  {
    if certs == [] {
      assert [cert][1..] == [];
    } else {
      assert (certs + [cert])[1..] == certs[1..] + [cert];
      TranscriptAppend(o, existing, cred, certs[1..], cert);
    }
  }

  /**
   * The sent lines are the certificates' transactions in input order, and
   * they do not depend on anything the appliance answers.
   */
  lemma {:induction false} RunSentIsTranscript(o: Options, env: Environment, cred: FtpCredentials, certs: seq<string>)
    ensures Run(o, env, cred, certs).sent == Transcript(o, env.existing, cred, certs)
    decreases |certs|
  {
    if certs != [] {
      var init := certs[..|certs| - 1];
      var last := certs[|certs| - 1];
      assert init + [last] == certs;
      RunSentIsTranscript(o, env, cred, init);
      RunSentStep(o, env, cred, certs);
      TranscriptAppend(o, env.existing, cred, init, last);
      calc {
        Run(o, env, cred, certs).sent;
        Run(o, env, cred, init).sent + Transaction(o, env.existing, cred, last);
        Transcript(o, env.existing, cred, init) + Transaction(o, env.existing, cred, last);
        Transcript(o, env.existing, cred, init + [last]);
      }
    }
  }

  /** The last certificate adds exactly its transaction to the sent lines. */
  lemma RunSentStep(o: Options, env: Environment, cred: FtpCredentials, certs: seq<string>)
    requires certs != []
    ensures Run(o, env, cred, certs).sent
      == Run(o, env, cred, certs[..|certs| - 1]).sent + Transaction(o, env.existing, cred, certs[|certs| - 1])
  {
  }

  /** The number of certificates that are imported. */
  function ImportCount(o: Options, existing: set<string>, certs: seq<string>): nat
    decreases |certs|
  {
    if certs == [] then 0
    else (if Decide(o, existing, certs[0]).Import? then 1 else 0) + ImportCount(o, existing, certs[1..])
  }

  /** Three lines per imported certificate and none per skipped one. */
  lemma {:induction false} TranscriptLength(o: Options, existing: set<string>, cred: FtpCredentials, certs: seq<string>)
    ensures |Transcript(o, existing, cred, certs)| == 3 * ImportCount(o, existing, certs)
    decreases |certs|
  {
    if certs != [] {
      TranscriptLength(o, existing, cred, certs[1..]);
    }
  }

  // ---------------------------------------------------------------------------
  // `result_str`: last writer wins

  /** `result_str` stays unbound exactly when every certificate was skipped. */
  lemma {:induction false} ResultUnboundIffAllSkipped(o: Options, env: Environment, cred: FtpCredentials, certs: seq<string>)
    ensures Run(o, env, cred, certs).result.None?
      <==> forall i :: 0 <= i < |certs| ==> !Decide(o, env.existing, certs[i]).Import?
    decreases |certs|
  {
    if certs != [] {
      var init := certs[..|certs| - 1];
      ResultUnboundIffAllSkipped(o, env, cred, init);
      assert forall i :: 0 <= i < |init| ==> init[i] == certs[i];
    }
  }

  /** Certificates that are all skipped change neither the sent lines nor `result_str`. */
  lemma {:induction false} SkippedSuffixLeavesState(o: Options, env: Environment, cred: FtpCredentials, certs: seq<string>, k: nat)
    requires k <= |certs|
    requires forall j :: k <= j < |certs| ==> !Decide(o, env.existing, certs[j]).Import?
    ensures Run(o, env, cred, certs).sent == Run(o, env, cred, certs[..k]).sent
    ensures Run(o, env, cred, certs).result == Run(o, env, cred, certs[..k]).result
    decreases |certs| - k
  {
    if k < |certs| {
      var init := certs[..|certs| - 1];
      assert init[..k] == certs[..k];
      SkippedSuffixLeavesState(o, env, cred, init, k);
    } else {
      assert certs[..k] == certs;
    }
  }

  /**
   * When certificate `k` is the last one imported, `result_str` is the
   * verdict on the appliance's answer to the transcript up to and including
   * that certificate's password; every earlier verdict is overwritten.
   */
  lemma ResultIsLastVerdict(o: Options, env: Environment, cred: FtpCredentials, certs: seq<string>, k: nat)
    requires k < |certs| && Decide(o, env.existing, certs[k]).Import?
    requires forall j :: k < j < |certs| ==> !Decide(o, env.existing, certs[j]).Import?
    ensures Run(o, env, cred, certs).result
      == Some(Verdict(env.respond(Transcript(o, env.existing, cred, certs[..k + 1]))))
  {
    SkippedSuffixLeavesState(o, env, cred, certs, k + 1);
    var upTo := certs[..k + 1];
    RunSentIsTranscript(o, env, cred, upTo);
    var last := Run(o, env, cred, upTo);
    assert last == Step(o, env, cred, Run(o, env, cred, upTo[..k]), certs[k]);
    assert last.result == Some(Verdict(env.respond(last.sent)));
  }

  /** The end of the run: the final line when a certificate was sent, an unbound-variable error otherwise. */
  lemma SummaryOfRun(o: Options, env: Environment, cred: FtpCredentials, certs: seq<string>)
    ensures Summarize(Run(o, env, cred, certs).result).UnboundResult?
      <==> forall i :: 0 <= i < |certs| ==> !Decide(o, env.existing, certs[i]).Import?
  {
    ResultUnboundIffAllSkipped(o, env, cred, certs);
  }

  // ---------------------------------------------------------------------------
  // Worked cases

  /** `box.pem` served from 10.0.0.5 on port 2121, no PFX password. */
  lemma PemExample()
    ensures Decide(Options(["box.pem"], "10.0.0.5", 2121, None), {"box.pem"}, "box.pem")
      == Import("import certificate general-usage from ftp://" + "10.0.0.5:2121/box.pem")
  {
    PemIsPlain();
    PlainCertCommand(Options(["box.pem"], "10.0.0.5", 2121, None), {"box.pem"}, "box.pem");
    PemCommandText();
  }

  lemma PemCommandText()
    ensures FetchCommand(Options(["box.pem"], "10.0.0.5", 2121, None), "box.pem")
      == "import certificate general-usage from ftp://" + "10.0.0.5:2121/box.pem"
  {
    assert DecimalString(2121) == "2121" by {
      assert NatDigits(2) == "2";
      assert NatDigits(21) == "21";
      assert NatDigits(212) == "212";
    }
    assert "10.0.0.5" + ":" + "2121" + "/" + "box.pem" == "10.0.0.5:2121/box.pem";
  }

  lemma PemIsPlain()
    ensures !IsPfx("box.pem")
  {
    var cert := "box.pem";
    assert '/' !in cert by {
      forall i | 0 <= i < |cert| ensures cert[i] != '/' {
      }
    }
    BasenameOfPlainName(cert);
    IsPfxIgnoresCase(cert);
  }

  /** An upper-case `.PFX` in a sub-directory: the URL keeps the full path and the password is appended. */
  lemma UpperCasePfxExample()
    ensures Decide(Options(["certs/Box.PFX"], "h", 21, Some("hunter2")), {"certs/Box.PFX"}, "certs/Box.PFX")
      == Import("import certificate general-usage from ftp://" + "h:21/certs/Box.PFX" + " hunter2")
  {
    var o := Options(["certs/Box.PFX"], "h", 21, Some("hunter2"));
    UpperCaseNameIsPfx();
    PfxCertCommand(o, {"certs/Box.PFX"}, "certs/Box.PFX", "hunter2");
    UpperCasePfxCommandText();
  }

  lemma UpperCasePfxCommandText()
    ensures FetchCommand(Options(["certs/Box.PFX"], "h", 21, Some("hunter2")), "certs/Box.PFX") + " " + "hunter2"
      == "import certificate general-usage from ftp://" + "h:21/certs/Box.PFX" + " hunter2"
  {
    assert DecimalString(21) == "21" by {
      assert NatDigits(2) == "2";
    }
    assert "h" + ":" + "21" + "/" + "certs/Box.PFX" == "h:21/certs/Box.PFX";
    assert " " + "hunter2" == " hunter2";
  }

  lemma UpperCaseNameIsPfx()
    ensures IsPfx("certs/Box.PFX")
  {
    var name := "Box.PFX";
    assert '/' !in name by {
      forall i | 0 <= i < |name| ensures name[i] != '/' {
      }
    }
    BasenameAfterSlash("certs", name);
    assert "certs" + "/" + name == "certs/Box.PFX";
    IsPfxIgnoresCase("certs/Box.PFX");
  }
}
