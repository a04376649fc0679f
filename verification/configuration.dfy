/** The mount configuration record (`Config` in fs/config.go) and a uniform
    view of its fields, used to say which fields an operation changes. */
module Configuration {
  import opened Wrappers

  /** Go's `uint32`. */
  type uint32 = x: int | 0 <= x < 0x1_0000_0000

  /** A parsed URL, as far as the configuration looks into it. */
  datatype Url = Url(scheme: string, host: string, path: string)

  /** URL parsing is a library call outside the model: a partial function
      that either yields a URL or fails. */
  type Parser = string -> Option<Url>

  /** `target` is Go's `*url.URL`: `None` is the nil pointer. `mode` is the
      numeric `os.FileMode`. */
  datatype Config = Config(
    bucket: string,
    basePath: string,
    cache: string,
    accountId: string,
    accessKey: string,
    secretKey: string,
    secretToken: string,
    target: Option<Url>,
    mountpoint: string,
    insecure: bool,
    debug: bool,
    uid: uint32,
    gid: uint32,
    mode: uint32)

  /** Go's zero value of `Config`, where option application starts. */
  const Zero := Config("", "", "", "", "", "", "", None, "", false, false, 0, 0, 0)

  datatype Field =
    | Bucket | BasePath | Cache | AccountId | AccessKey | SecretKey | SecretToken
    | TargetUrl | Mountpoint | Insecure | Debug | Uid | Gid | Mode

  /** The value of one field, whatever its type. */
  datatype Value = Text(s: string) | Link(url: Option<Url>) | Flag(b: bool) | Number(n: nat)

  function Get(c: Config, f: Field): Value
  {
    match f
    case Bucket => Text(c.bucket)
    case BasePath => Text(c.basePath)
    case Cache => Text(c.cache)
    case AccountId => Text(c.accountId)
    case AccessKey => Text(c.accessKey)
    case SecretKey => Text(c.secretKey)
    case SecretToken => Text(c.secretToken)
    case TargetUrl => Link(c.target)
    case Mountpoint => Text(c.mountpoint)
    case Insecure => Flag(c.insecure)
    case Debug => Flag(c.debug)
    case Uid => Number(c.uid)
    case Gid => Number(c.gid)
    case Mode => Number(c.mode)
  }

  /** Two configurations that agree on every field are the same. */
  lemma Extensionality(a: Config, b: Config)
    requires forall f :: Get(a, f) == Get(b, f)
    ensures a == b
  {
    assert Get(a, Bucket) == Get(b, Bucket);
    assert Get(a, BasePath) == Get(b, BasePath);
    assert Get(a, Cache) == Get(b, Cache);
    assert Get(a, AccountId) == Get(b, AccountId);
    assert Get(a, AccessKey) == Get(b, AccessKey);
    assert Get(a, SecretKey) == Get(b, SecretKey);
    assert Get(a, SecretToken) == Get(b, SecretToken);
    assert Get(a, TargetUrl) == Get(b, TargetUrl);
    assert Get(a, Mountpoint) == Get(b, Mountpoint);
    assert Get(a, Insecure) == Get(b, Insecure);
    assert Get(a, Debug) == Get(b, Debug);
    assert Get(a, Uid) == Get(b, Uid);
    assert Get(a, Gid) == Get(b, Gid);
    assert Get(a, Mode) == Get(b, Mode);
  }
}
