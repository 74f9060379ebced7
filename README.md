# WatchGuard certificate uploader — Dafny model

The uploader delivers certificate files to a WatchGuard firewall. It serves
the files from a throwaway FTP server with two random credentials. Then it
opens a management session to the appliance and, for each certificate path
on its command line and in that order, does the following:

- it skips a path that does not exist;
- it treats a file whose lower-cased basename ends in `.pfx` as a PFX archive;
- it skips a PFX archive when no (non-empty) `--pfx-password` was given;
- otherwise it sends `import certificate general-usage from ftp://HOST:PORT/PATH`
  (with ` PASSWORD` appended for a PFX), then the FTP username, then the FTP password.

A single variable `result_str` keeps the verdict on the last answer only.
It is `""` when that answer contains `Error` and `"Certificates uploaded and "`
otherwise. The final line is that prefix followed by
`WatchGuard session closed successfully.`. When no certificate was sent the
variable was never bound, and the final line raises an unbound-variable error.

The model is in four modules:

- `Wrappers` (`wrappers.dfy`): `Option`, for values that may be `None`.
- `Text` (`text.dfy`): the Python string operations the loop uses.
  These are `os.path.basename` (`rfind('/')` and a slice), `str.lower`,
  `str.endswith`, the substring test `in`, and `str(int)` for the FTP port.
- `Credentials` (`credentials.dfy`): `generate_password`. The random draws are
  nondeterministic choice, so its contract holds for every outcome.
- `Uploader` (`uploader.dfy`): the import loop and the end of `main`.
  - The filesystem is a set of existing paths.
  - The appliance is an oracle from the lines sent so far to its answer to the last one.
  - `Run` is the specification: the loop's state after a prefix of the certificates.
  - `ImportCerts` is the loop itself, with its `continue` skips, proved equal to `Run`.
  - `Transcript` is an independent front-to-back definition of what is sent.
  - The lemmas relate these definitions to each other and to the skip rules.

Behaviours of the code worth knowing:

- `generate_password` with a negative length returns the empty string, because `range` of a negative number is empty.
- An empty `--pfx-password` counts as not given, because the code tests truthiness, not `None`.
- Only the last imported certificate's verdict is kept; earlier verdicts are overwritten.

## Model

| member | source | states |
|---|---|---|
| `Credentials.GeneratePassword` | watchguard_certs_uploader.py:17-19 | the password has exactly `length` characters (none when `length` is negative), each an ASCII letter or digit |
| `Credentials.CharactersAreAlphanumeric` | watchguard_certs_uploader.py:18 | the alphabet `ascii_letters + digits` has 62 characters and contains a character exactly when it is an ASCII letter or digit |
| `Credentials.NewFtpCredentials` | watchguard_certs_uploader.py:56-57 | the FTP username and password are each 16 ASCII letters or digits |
| `Text.LastSlash` | watchguard_certs_uploader.py:80 | the index is -1 or points at a '/', and no '/' follows it |
| `Text.Basename` | watchguard_certs_uploader.py:80 | `os.path.basename` as `p[p.rfind('/') + 1:]`; its properties are stated by `Text.BasenameIsLastComponent` and `Text.BasenameOfPlainName` |
| `Text.BasenameIsLastComponent` | watchguard_certs_uploader.py:80 | the basename is a suffix of the path with no '/', and the character before it, if any, is '/' |
| `Text.BasenameOfPlainName` | watchguard_certs_uploader.py:80 | a path without '/' is its own basename |
| `Text.Lower` | watchguard_certs_uploader.py:87 | `str.lower` on each character; its properties are stated by `Text.LowerFoldsOnlyCapitals` and `Text.LowerIdempotent` |
| `Text.LowerFoldsOnlyCapitals` | watchguard_certs_uploader.py:87 | lowering keeps the length, leaves no ASCII capital, keeps every other character, and moves each capital to its small letter |
| `Text.LowerIdempotent` | watchguard_certs_uploader.py:87 | lowering an already lowered name changes nothing |
| `Text.Contains` | watchguard_certs_uploader.py:101 | Python's substring test `"Error" in response`; `Text.ContainsIffOccurs` states that it holds exactly when the pattern occurs at some index |
| `Text.ContainsIffOccurs` | watchguard_certs_uploader.py:101 | the substring scan is true exactly when the pattern occurs at some index of the text |
| `Text.DecimalString` | watchguard_certs_uploader.py:89-94 | `str(args.ftp_port)` inside the f-strings, with a leading '-' for a negative port; `Text.DecimalStringOfNat` states that a non-negative port renders as plain digits that read back as the port |
| `Text.NatDigits` | watchguard_certs_uploader.py:94 | the port is rendered as at least one decimal digit, with no leading zero unless it is 0 |
| `Text.NatDigitsRoundTrip` | watchguard_certs_uploader.py:46 | reading the rendered digits back as an integer gives the port that was parsed |
| `Text.DecimalStringOfNat` | watchguard_certs_uploader.py:94 | a non-negative port is rendered as plain digits that read back as the port |
| `Uploader.HasPfxPassword` | watchguard_certs_uploader.py:88 | the truthiness test `if args.pfx_password:`, false for `None` and for `""`; `Uploader.ImportIff` and `Uploader.PfxWithoutPasswordSkipped` state its effect on the skip |
| `Uploader.FetchCommand` | watchguard_certs_uploader.py:89-94 | the f-string `import certificate general-usage from ftp://{host}:{port}/{cert}`; its exact text is stated by `Uploader.PlainCertCommand`, `Uploader.PfxCertCommand` and the two worked examples |
| `Uploader.Decide` | watchguard_certs_uploader.py:81-94 | a certificate is missing exactly when its path does not exist, skipped as a PFX exactly when it exists, is a PFX and has no truthy password, and otherwise imported with a command that starts with its fetch URL; `Uploader.ImportIff` and the command lemmas state the rest |
| `Uploader.PlainCertCommand` | watchguard_certs_uploader.py:93-94 | an existing non-PFX certificate is imported with exactly `import certificate general-usage from ftp://` + host + `:` + port + `/` + its full path |
| `Uploader.PfxCertCommand` | watchguard_certs_uploader.py:87-89 | an existing PFX with a non-empty password is imported with the same command followed by a space and the password |
| `Uploader.PfxWithoutPasswordSkipped` | watchguard_certs_uploader.py:87-92 | an existing PFX with no password or an empty one is skipped |
| `Uploader.MissingCertSkipped` | watchguard_certs_uploader.py:81-83 | a path that does not exist is skipped before its kind or the password is looked at |
| `Uploader.ImportIff` | watchguard_certs_uploader.py:81-94 | a certificate is imported exactly when it exists and is either not a PFX or has a non-empty PFX password |
| `Text.EndsWith` | watchguard_certs_uploader.py:87 | `str.endswith`; `Uploader.EndsWithPfxIgnoresCase` states what ending in `.pfx` means for a lowered name |
| `Uploader.IsPfx` | watchguard_certs_uploader.py:80-87 | the kind test `filename.lower().endswith(".pfx")` on the basename; `Uploader.IsPfxIgnoresCase` states it character by character |
| `Uploader.IsPfxIgnoresCase` | watchguard_certs_uploader.py:80-87 | the kind test holds exactly when `PfxTail` holds of the basename: its last four characters are '.', then p or P, then f or F, then x or X |
| `Uploader.EndsWithPfxIgnoresCase` | watchguard_certs_uploader.py:87 | a lowered string ends in `.pfx` exactly when its last four characters are '.', p or P, f or F, x or X |
| `Uploader.IsPfxOnWholePath` | watchguard_certs_uploader.py:80-87 | testing the lowered basename for `.pfx` gives the same answer as testing the lowered full path |
| `Uploader.IsPfxDependsOnBasename` | watchguard_certs_uploader.py:80-87 | prefixing a directory does not change the kind: only the last path component is tested |
| `Uploader.BasenameAfterSlash` | watchguard_certs_uploader.py:80 | the basename of `dir/name` is `name` when `name` has no '/' |
| `Uploader.PemExample` | watchguard_certs_uploader.py:93-94 | `box.pem` served from 10.0.0.5:2121 gives `import certificate general-usage from ftp://10.0.0.5:2121/box.pem` |
| `Uploader.UpperCasePfxExample` | watchguard_certs_uploader.py:87-89 | `certs/Box.PFX` with password `hunter2` counts as a PFX and keeps its full path in the URL, with ` hunter2` appended |
| `Uploader.Verdict` | watchguard_certs_uploader.py:101-105 | `result_str` becomes either `""` or `"Certificates uploaded and "`; `Uploader.VerdictIffErrorOccurs` states which |
| `Uploader.VerdictIffErrorOccurs` | watchguard_certs_uploader.py:101-105 | the verdict is `""` exactly when "Error" occurs somewhere in the response, and `"Certificates uploaded and "` otherwise |
| `Uploader.Step` | watchguard_certs_uploader.py:80-105 | one pass of the loop body sends three more lines for an imported certificate and none otherwise, only extends the sent and printed lines, and either keeps `result_str` or binds it; `Uploader.SkippedCertLeavesState` and `Uploader.ImportedCertSendsThreeLines` state each branch exactly |
| `Uploader.Run` | watchguard_certs_uploader.py:79-105 | the specification of the loop: at most three lines per certificate are sent, and `result_str` is unbound exactly when nothing was sent; the lemmas below state its properties |
| `Uploader.ImportCerts` | watchguard_certs_uploader.py:79-105 | the loop's sent lines, printed lines and final `result_str` are those of the specification `Run` over the certificates in input order |
| `Uploader.SkippedCertLeavesState` | watchguard_certs_uploader.py:81-92 | a skipped certificate sends nothing, leaves `result_str` unchanged and prints the line that says why |
| `Uploader.ImportedCertSendsThreeLines` | watchguard_certs_uploader.py:97-105 | an imported certificate appends exactly its command, the FTP username and the FTP password, prints the command (and the answer if it contains "Error") and sets `result_str` from the answer to the password |
| `Uploader.TranscriptAppend` | watchguard_certs_uploader.py:79-100 | appending a certificate appends exactly its own transaction to the transcript |
| `Uploader.RunSentStep` | watchguard_certs_uploader.py:98-100 | the last certificate adds exactly its own transaction to the sent lines |
| `Uploader.RunSentIsTranscript` | watchguard_certs_uploader.py:79-100 | the lines sent are the certificates' transactions concatenated in input order, whatever the appliance answers |
| `Uploader.TranscriptLength` | watchguard_certs_uploader.py:98-100 | three lines are sent per imported certificate and none per skipped one |
| `Uploader.ResultUnboundIffAllSkipped` | watchguard_certs_uploader.py:100-116 | `result_str` is never bound exactly when every certificate is skipped |
| `Uploader.SkippedSuffixLeavesState` | watchguard_certs_uploader.py:81-92 | a run of skipped certificates at the end changes neither the sent lines nor `result_str` |
| `Uploader.ResultIsLastVerdict` | watchguard_certs_uploader.py:100-105 | `result_str` is the verdict on the answer to the last imported certificate's password; earlier verdicts are overwritten |
| `Uploader.Summarize` | watchguard_certs_uploader.py:116 | the final line is `result_str` followed by `WatchGuard session closed successfully.`, and the unbound-variable error happens when `result_str` was never bound |
| `Uploader.SummaryOfRun` | watchguard_certs_uploader.py:116 | the run ends in the unbound-variable error exactly when every certificate was skipped |
| `Uploader.Upload` | watchguard_certs_uploader.py:79-116 | the whole session sends the transcript and then `exit`, and prints the loop's lines and then the final line when `result_str` is bound |

## Left out

- The FTP server (`run_ftp_server`) and the process that runs it: an external library and a separate OS process.
- The SSH session: connecting, `send_command_timing`, `disconnect` and `paramiko_cleanup` are foreign calls.
  The appliance is a function from the lines sent so far to its answer, and the answers to the command and to the username are not read, as in the code.
- The connection-error branch and `sys.exit(1)`: exception handling around a foreign constructor.
- The `sleep` calls: timing only.
- An exception from `send_command_timing`, such as a read timeout, aborts the run in the code before `exit` is sent and before the final line. It is not modelled: the oracle stands only for reads that return.
- `argparse`: the parsed values are plain parameters, with `--pfx-password` as an `Option`.
- The random source of `generate_password`: each draw is a nondeterministic choice from the alphabet.
- `os.path.exists`: a set of existing paths.
- `Text.Lower`: folds only ASCII A-Z. Python's `str.lower` also folds other letters, but none of them lowers to a character of `.pfx`, so the PFX test is the same.
- `Text.Basename`: the POSIX `os.path.basename`, splitting at '/' only. On Windows it also splits at `\` and after a drive letter. For most paths that changes only the name printed in the `Skipping PFX` line, because the kind test gives the same answer on the whole path (`Uploader.IsPfxOnWholePath`). The exception is a UNC share root such as `\\server\x.pfx`: its Windows basename is empty, so Windows treats it as a plain certificate while the model treats it as a PFX.
