/** `InitMinFSConfig`: makes sure the credential file exists, creating it
    from environment values on the first run, and otherwise loads it and lets
    non-empty environment values override its keys.

    The file system, the environment and JSON encoding are outside the
    model. A `Host` gives the outcome of each file-system call and the
    environment; a `Codec` gives JSON encoding and decoding as opaque partial
    functions. A run reports its result and the file-system calls it made. */
module Bootstrap {
  import opened Wrappers

  type Bytes = seq<bv8>

  /** An error as the host or the codec reports it; the bootstrap never makes
      up its own. */
  datatype Error = Error(reason: string)

  /** The persisted credential record (`AccessConfig`). */
  datatype AccessConfig = AccessConfig(version: string, accessKey: string, secretKey: string, secretToken: string)

  const CurrentVersion := "1"

  /** The three credential keys, and the environment variable that sets each. */
  datatype Key = Access | Secret | Token

  function VarOf(k: Key): string
  {
    match k
    case Access => "MINFS_ACCESS_KEY"
    case Secret => "MINFS_SECRET_KEY"
    case Token => "MINFS_SECRET_TOKEN"
  }

  function KeyOf(ac: AccessConfig, k: Key): string
  {
    match k
    case Access => ac.accessKey
    case Secret => ac.secretKey
    case Token => ac.secretToken
  }

  /** What stat reports for the credential file: missing, failing for another
      reason, or present, in which case reading it yields its bytes or an
      error. */
  datatype StatOutcome = NotExist | StatFailed(err: Error) | Present(read: Result<Bytes, Error>)

  /** The outcomes of the calls the bootstrap can make, and the environment. */
  datatype Host = Host(mkdir: Outcome<Error>, stat: StatOutcome, write: Outcome<Error>, env: map<string, string>)

  datatype Codec = Codec(marshal: AccessConfig -> Result<Bytes, Error>, unmarshal: Bytes -> Result<AccessConfig, Error>)

  datatype Effect = MakeDir | StatFile | ReadFile | WriteFile(data: Bytes)

  datatype Run = Run(result: Result<AccessConfig, Error>, effects: seq<Effect>)

  /** `os.Getenv`: an unset variable reads as the empty string. */
  function Getenv(env: map<string, string>, name: string): string
  {
    if name in env then env[name] else ""
  }

  /** The record created on the first run. */
  function FirstRunRecord(env: map<string, string>): (ac: AccessConfig)
    ensures ac.version == CurrentVersion
    ensures forall k :: KeyOf(ac, k) == Getenv(env, VarOf(k))
  {
    AccessConfig(CurrentVersion, Getenv(env, "MINFS_ACCESS_KEY"), Getenv(env, "MINFS_SECRET_KEY"), Getenv(env, "MINFS_SECRET_TOKEN"))
  }

  /** The loaded record with each key replaced by its environment value when
      that value is non-empty. */
  function Override(ac: AccessConfig, env: map<string, string>): (r: AccessConfig)
    ensures r.version == ac.version
    ensures forall k :: KeyOf(r, k) == if Getenv(env, VarOf(k)) != "" then Getenv(env, VarOf(k)) else KeyOf(ac, k)
  {
    var accessKey := Getenv(env, "MINFS_ACCESS_KEY");
    var secretKey := Getenv(env, "MINFS_SECRET_KEY");
    var secretToken := Getenv(env, "MINFS_SECRET_TOKEN");
    ac.(accessKey := if accessKey != "" then accessKey else ac.accessKey,
        secretKey := if secretKey != "" then secretKey else ac.secretKey,
        secretToken := if secretToken != "" then secretToken else ac.secretToken)
  }

  /** The errors a run may return: exactly those reported by the calls it
      makes. */
  predicate Raised(h: Host, codec: Codec, e: Error)
  {
    || (h.mkdir.Fail? && e == h.mkdir.error)
    || (h.stat.StatFailed? && e == h.stat.err)
    || (h.stat.Present? && h.stat.read.Err? && e == h.stat.read.error)
    || (h.stat.Present? && h.stat.read.Ok? && codec.unmarshal(h.stat.read.value) == Err(e))
    || (h.stat.NotExist? && codec.marshal(FirstRunRecord(h.env)) == Err(e))
    || (h.stat.NotExist? && h.write == Fail(e))
  }

  predicate Writes(effects: seq<Effect>)
  {
    exists i :: 0 <= i < |effects| && effects[i].WriteFile?
  }

  function Init(h: Host, codec: Codec): (run: Run)
    // Errors are passed on as reported.
    ensures run.result.Err? ==> Raised(h, codec, run.result.error)
    // Directory creation comes first and its failure stops everything.
    ensures h.mkdir.Fail? ==> run == Run(Err(h.mkdir.error), [MakeDir])
    ensures h.mkdir.Pass? ==> |run.effects| >= 2 && run.effects[..2] == [MakeDir, StatFile]
    // A stat failure other than "not exist" is returned without reading or writing.
    ensures h.mkdir.Pass? && h.stat.StatFailed? ==> run == Run(Err(h.stat.err), [MakeDir, StatFile])
    // Only the first run writes, and it writes the encoding of the record it returns.
    ensures Writes(run.effects) ==> h.stat.NotExist?
    ensures h.mkdir.Pass? && h.stat.NotExist? ==>
      (run.result.Ok? <==> codec.marshal(FirstRunRecord(h.env)).Ok? && h.write.Pass?)
    ensures h.stat.NotExist? && run.result.Ok? ==>
      && run.result.value == FirstRunRecord(h.env)
      && codec.marshal(run.result.value).Ok?
      && run.effects == [MakeDir, StatFile, WriteFile(codec.marshal(run.result.value).value)]
    // An encoding failure is returned before anything is written; otherwise the
    // encoding is written, and a write failure is what the run returns.
    ensures h.mkdir.Pass? && h.stat.NotExist? && codec.marshal(FirstRunRecord(h.env)).Err? ==>
      run == Run(Err(codec.marshal(FirstRunRecord(h.env)).error), [MakeDir, StatFile])
    ensures h.mkdir.Pass? && h.stat.NotExist? && codec.marshal(FirstRunRecord(h.env)).Ok? ==>
      && run.effects == [MakeDir, StatFile, WriteFile(codec.marshal(FirstRunRecord(h.env)).value)]
      && (h.write.Fail? ==> run.result == Err(h.write.error))
    // A present file is read once and decoded, never written, and overridden in memory;
    // a read or decoding failure is what the run returns.
    ensures h.mkdir.Pass? && h.stat.Present? ==> run.effects == [MakeDir, StatFile, ReadFile]
    ensures h.mkdir.Pass? && h.stat.Present? ==> !Writes(run.effects)
    ensures h.mkdir.Pass? && h.stat.Present? && h.stat.read.Err? ==> run.result == Err(h.stat.read.error)
    ensures h.mkdir.Pass? && h.stat.Present? && h.stat.read.Ok? && codec.unmarshal(h.stat.read.value).Err? ==>
      run.result == Err(codec.unmarshal(h.stat.read.value).error)
    ensures h.mkdir.Pass? && h.stat.Present? ==>
      (run.result.Ok? <==> h.stat.read.Ok? && codec.unmarshal(h.stat.read.value).Ok?)
    ensures h.stat.Present? && run.result.Ok? ==>
      && h.stat.read.Ok? && codec.unmarshal(h.stat.read.value).Ok?
      && run.result.value == Override(codec.unmarshal(h.stat.read.value).value, h.env)
  {
    if h.mkdir.Fail? then Run(Err(h.mkdir.error), [MakeDir])
    else
      match h.stat
      case NotExist =>
        var ac := FirstRunRecord(h.env);
        (match codec.marshal(ac)
         case Err(e) => Run(Err(e), [MakeDir, StatFile])
         case Ok(bytes) =>
           if h.write.Fail? then Run(Err(h.write.error), [MakeDir, StatFile, WriteFile(bytes)])
           else Run(Ok(ac), [MakeDir, StatFile, WriteFile(bytes)]))
      case StatFailed(e) => Run(Err(e), [MakeDir, StatFile])
      case Present(read) =>
        (match read
         case Err(e) => Run(Err(e), [MakeDir, StatFile, ReadFile])
         case Ok(bytes) =>
           (match codec.unmarshal(bytes)
            case Err(e) => Run(Err(e), [MakeDir, StatFile, ReadFile])
            case Ok(ac) => Run(Ok(Override(ac, h.env)), [MakeDir, StatFile, ReadFile])))
  }

  // ----- Environment precedence -----

  /** Overriding twice with the same environment is overriding once. */
  lemma OverrideIdempotent(ac: AccessConfig, env: map<string, string>)
    ensures Override(Override(ac, env), env) == Override(ac, env)
  {
  }

  /** With none of the three variables set, the loaded record is returned as
      it is. */
  lemma OverrideWithoutEnv(ac: AccessConfig, env: map<string, string>)
    requires forall k :: Getenv(env, VarOf(k)) == ""
    ensures Override(ac, env) == ac
  {
    var r := Override(ac, env);
    assert KeyOf(r, Access) == KeyOf(ac, Access);
    assert KeyOf(r, Secret) == KeyOf(ac, Secret);
    assert KeyOf(r, Token) == KeyOf(ac, Token);
  }

  /** The first-run record already agrees with the environment it came from,
      so overriding it with that environment changes nothing. */
  lemma OverrideFirstRunRecord(env: map<string, string>)
    ensures Override(FirstRunRecord(env), env) == FirstRunRecord(env)
  {
  }

  /** A restart sees the same credentials: if the first run wrote its record
      and decoding gives that record back, a later run over the written file
      with the same environment returns the same record and writes nothing. */
  lemma RestartReturnsSameRecord(first: Host, codec: Codec)
    requires first.mkdir.Pass? && first.stat.NotExist?
    requires Init(first, codec).result.Ok?
    requires codec.unmarshal(codec.marshal(FirstRunRecord(first.env)).value) == Ok(FirstRunRecord(first.env))
    ensures var second := first.(stat := Present(Ok(codec.marshal(FirstRunRecord(first.env)).value)));
      && Init(second, codec).result == Init(first, codec).result
      && !Writes(Init(second, codec).effects)
  {
  }

  // ----- Worked examples -----

  /** First run with access key "A" and secret key "B" set: the record is
      version "1", "A", "B" and an empty token, and it is what gets written. */
  lemma ExampleFirstRun(h: Host, codec: Codec)
    requires h.mkdir.Pass? && h.stat.NotExist? && h.write.Pass?
    requires h.env == map["MINFS_ACCESS_KEY" := "A", "MINFS_SECRET_KEY" := "B"]
    requires codec.marshal(AccessConfig("1", "A", "B", "")).Ok?
    ensures Init(h, codec) == Run(Ok(AccessConfig("1", "A", "B", "")),
      [MakeDir, StatFile, WriteFile(codec.marshal(AccessConfig("1", "A", "B", "")).value)])
  {
  }

  /** A later run over a file holding access key "A" and secret key "B", with
      only the secret key variable set to "C": the secret key comes from the
      environment, the rest from the file, and nothing is written. */
  lemma ExampleSecondRun(h: Host, codec: Codec, bytes: Bytes)
    requires h.mkdir.Pass? && h.stat == Present(Ok(bytes))
    requires h.env == map["MINFS_SECRET_KEY" := "C"]
    requires codec.unmarshal(bytes) == Ok(AccessConfig("", "A", "B", ""))
    ensures Init(h, codec) == Run(Ok(AccessConfig("", "A", "C", "")), [MakeDir, StatFile, ReadFile])
  {
  }
}
