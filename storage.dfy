/**
 * The QiniuFS façade: a bucket with its credentials, URL prefix and upload
 * policy. Every operation assembles the arguments of one vendor SDK call
 * (upload token, put_data, put_stream, delete, persistent fop, private
 * download URL) and interprets the SDK's `(ret, info)` reply. The SDK calls
 * are not modelled: a call is a datatype value holding its arguments, and
 * the SDK's reply is a function the caller supplies.
 */
module Storage {
  import opened Wrappers
  import opened Python
  import opened UploadPolicy

  /** MIME type used when the caller gives none. */
  const DefaultMimeType := "application/octet-stream"
  /** Lifetime, in seconds, of an upload token when the caller gives none. */
  const DefaultTokenExpires := 3600
  /** Lifetime, in seconds, of a private download URL: one hour. */
  const PrivateUrlExpires := 60 * 60

  /** The two keys the SDK's Auth object is built from. */
  datatype Credentials = Credentials(accessKey: string, secretKey: string)

  /** The arguments of `Auth.upload_token`; the signature itself is the SDK's. */
  datatype UploadToken = UploadToken(
    auth: Credentials, bucket: string, key: string, expires: int, policy: Option<PutPolicy>)

  /** The arguments of `put_data(token, key, data, mime_type)`. */
  datatype PutDataCall<D> = PutDataCall(token: UploadToken, key: string, data: D, mimeType: string)

  /**
   * The arguments of `put_stream(token, key, file, data_size, mime_type)`;
   * the progress callback it also receives is not modelled.
   */
  datatype PutStreamCall = PutStreamCall(
    token: UploadToken, key: string, file: seq<byte>, dataSize: nat, mimeType: string)

  /** The arguments of `BucketManager(auth).delete(bucket, key)`. */
  datatype DeleteCall = DeleteCall(auth: Credentials, bucket: string, key: string)

  /** The arguments of `PersistentFop(auth, bucket, pipeline).execute(key, ops, force)`. */
  datatype PfopCall = PfopCall(
    auth: Credentials, bucket: string, pipeline: Option<string>, key: string, ops: seq<string>, force: bool)

  /** A reply `(ret, info)` of an SDK call; `ret` is None when the call failed. */
  datatype Reply<R, I> = Reply(ret: Option<R>, info: I)

  /** `UploadError(ret, info)`, raised with the SDK's diagnostic when `ret` is None. */
  datatype UploadError<I> = UploadError(info: I)

  /**
   * A download URL: a public one as a string, or the arguments of
   * `Auth.private_download_url(url, expires)`, whose signing is the SDK's.
   */
  datatype DownloadUrl =
    | PublicUrl(url: string)
    | PrivateUrl(auth: Credentials, url: string, expires: int)

  /** The bucket's default public domain, used when no URL prefix is configured. */
  function DefaultDomain(bucket: string): (d: string)
    ensures |d| == |bucket| + 20 && d[..7] == "http://"
    ensures d[7..7 + |bucket|] == bucket
    ensures d[7 + |bucket|..] == ".qiniudn.com/"
  {
    "http://" + bucket + ".qiniudn.com/"
  }

  /** An upload succeeds with `(True, ret)` exactly when the SDK's `ret` is not None. */
  function UploadOutcome<R, I>(reply: Reply<R, I>): (r: Result<(bool, R), UploadError<I>>)
    ensures r.Failure? <==> reply.ret.None?
    ensures r.Failure? ==> r.error == UploadError(reply.info)
    ensures r.Success? ==> r.value == (true, reply.ret.value)
  {
    match reply.ret
    case None => Failure(UploadError(reply.info))
    case Some(ret) => Success((true, ret))
  }

  /**
   * The reference a prefixed download URL is resolved from: `"/" +
   * key.rstrip("/")`. It starts with "/"; what follows is `key` without its
   * trailing slashes.
   */
  function PathReference(key: string): (ref: string)
    ensures |ref| >= 1 && ref[0] == '/'
    ensures ref[1..] <= key && !EndsWith(ref[1..], '/')
    ensures forall i :: |ref| - 1 <= i < |key| ==> key[i] == '/'
  {
    "/" + RStrip(key, '/')
  }

  class QiniuFs {
    const bucket: string
    const accessKey: string
    const secretKey: string
    /** The domain download URLs are resolved against; None or "" means the default domain. */
    const prefixUrl: Option<string>
    /** The policy every upload token carries, if any. */
    const policy: Option<PutPolicy>

    constructor (bucket: string, accessKey: string, secretKey: string, prefixUrl: Option<string>,
                 policy: Option<PutPolicy> := None)
      ensures this.bucket == bucket && this.accessKey == accessKey && this.secretKey == secretKey
      ensures this.prefixUrl == prefixUrl && this.policy == policy
    {
      this.bucket := bucket;
      this.accessKey := accessKey;
      this.secretKey := secretKey;
      this.prefixUrl := prefixUrl;
      this.policy := policy;
    }

    /** `repr()`: the bucket name in angle-bracketed text. */
    function Repr(): (r: string)
      ensures |r| == |bucket| + 10
      ensures r[..9] == "<QiniuFS " && r[9..|r| - 1] == bucket && r[|r| - 1] == '>'
    {
      "<QiniuFS " + bucket + ">"
    }

    /** The credentials an SDK Auth object is built from. */
    function Auth(): (c: Credentials)
      ensures c.accessKey == accessKey && c.secretKey == secretKey
    {
      Credentials(accessKey, secretKey)
    }

    /**
     * `_token(key, expires)`: a falsy key is replaced by the generated key
     * `generated`; the token is issued for this bucket, this policy and the
     * key actually used, and that key is returned beside it.
     */
    function Token(generated: string, key: Option<string> := None, expires: int := DefaultTokenExpires)
      : (r: (UploadToken, string))
      ensures Given(key) ==> r.1 == key.value
      ensures !Given(key) ==> r.1 == generated
      ensures r.0.key == r.1
      ensures r.0.bucket == bucket && r.0.policy == policy && r.0.auth == Auth()
      ensures r.0.expires == expires
    {
      var usedKey := Or(key, generated);
      (UploadToken(Auth(), bucket, usedKey, expires, policy), usedKey)
    }

    /**
     * The `put_data` call `upload_data` makes: the token for the key used and
     * the default lifetime, that same key, the data, and the MIME type or its default.
     */
    function PutData<D>(data: D, generated: string, mimeType: Option<string> := None,
                        key: Option<string> := None): (c: PutDataCall<D>)
      ensures c.token == Token(generated, key).0 && c.token.expires == DefaultTokenExpires
      ensures c.key == c.token.key
      ensures Given(key) ==> c.key == key.value
      ensures !Given(key) ==> c.key == generated
      ensures c.data == data
      ensures Given(mimeType) ==> c.mimeType == mimeType.value
      ensures !Given(mimeType) ==> c.mimeType == DefaultMimeType
    {
      var (token, usedKey) := Token(generated, key);
      PutDataCall(token, usedKey, data, Or(mimeType, DefaultMimeType))
    }

    /** `upload_data`: `(True, ret)` when put_data's `ret` is not None, UploadError otherwise. */
    function UploadData<D, R, I>(data: D, putData: PutDataCall<D> -> Reply<R, I>, generated: string,
                                 mimeType: Option<string> := None, key: Option<string> := None)
      : (r: Result<(bool, R), UploadError<I>>)
      ensures var reply := putData(PutData(data, generated, mimeType, key));
        && (r.Failure? <==> reply.ret.None?)
        && (r.Success? ==> r.value == (true, reply.ret.value))
        && (r.Failure? ==> r.error == UploadError(reply.info))
    {
      UploadOutcome(putData(PutData(data, generated, mimeType, key)))
    }

    /**
     * The `put_stream` call `upload_file` makes: as for put_data, with the
     * file and its size, which is the length of its whole content.
     */
    function PutStream(file: seq<byte>, generated: string, mimeType: Option<string> := None,
                       key: Option<string> := None): (c: PutStreamCall)
      ensures c.token == Token(generated, key).0 && c.token.expires == DefaultTokenExpires
      ensures c.key == c.token.key
      ensures Given(key) ==> c.key == key.value
      ensures !Given(key) ==> c.key == generated
      ensures c.file == file && c.dataSize == |file|
      ensures Given(mimeType) ==> c.mimeType == mimeType.value
      ensures !Given(mimeType) ==> c.mimeType == DefaultMimeType
    {
      var (token, usedKey) := Token(generated, key);
      PutStreamCall(token, usedKey, file, |file|, Or(mimeType, DefaultMimeType))
    }

    /** `upload_file`: `(True, ret)` when put_stream's `ret` is not None, UploadError otherwise. */
    function UploadFile<R, I>(file: seq<byte>, putStream: PutStreamCall -> Reply<R, I>, generated: string,
                              mimeType: Option<string> := None, key: Option<string> := None)
      : (r: Result<(bool, R), UploadError<I>>)
      ensures var reply := putStream(PutStream(file, generated, mimeType, key));
        && (r.Failure? <==> reply.ret.None?)
        && (r.Success? ==> r.value == (true, reply.ret.value))
        && (r.Failure? ==> r.error == UploadError(reply.info))
    {
      UploadOutcome(putStream(PutStream(file, generated, mimeType, key)))
    }

    /** `delete_file`: never raises; reports True with whatever `ret` the SDK gave, None included. */
    function DeleteFile<R, I>(key: string, delete: DeleteCall -> Reply<R, I>): (r: (bool, Option<R>))
      ensures r.0
      ensures r.1 == delete(DeleteCall(Auth(), bucket, key)).ret
    {
      var reply := delete(DeleteCall(Auth(), bucket, key));
      (true, reply.ret)
    }

    /**
     * `asyn_file_process`: submits the single operation `fops`, forced, on
     * this bucket and the given pipeline; never raises and reports True.
     */
    function AsynFileProcess<R, I>(key: string, fops: string, execute: PfopCall -> Reply<R, I>,
                                   pipeline: Option<string> := None): (r: (bool, Option<R>))
      ensures r.0
      ensures r.1 == execute(PfopCall(Auth(), bucket, pipeline, key, [fops], true)).ret
    {
      var ops := [fops];
      var reply := execute(PfopCall(Auth(), bucket, pipeline, key, ops, true));
      (true, reply.ret)
    }

    /**
     * `get_url`. Without a prefix the URL is the bucket's default domain
     * followed by the key as given; with one it is `urljoin(prefix,
     * PathReference(key))`. A given style appends "-" and the style. A private
     * URL is handed to the signer with a one-hour lifetime. `scheme` is
     * accepted and has no effect.
     */
    method GetUrl(key: string, urljoin: (string, string) -> string, scheme: string := "http",
                  style: Option<string> := None, isPrivate: bool := false) returns (u: DownloadUrl)
      ensures var base := if Given(prefixUrl) then urljoin(prefixUrl.value, PathReference(key))
                          else DefaultDomain(bucket) + key;
        && (Given(style) ==> u.url == base + "-" + style.value)
        && (!Given(style) ==> u.url == base)
      ensures !Given(prefixUrl) && !Given(style) ==> u.url[|u.url| - |key|..] == key
      ensures u.PrivateUrl? <==> isPrivate
      ensures u.PrivateUrl? ==> u.auth == Auth() && u.expires == 3600
    {
      var url := "";
      if Given(prefixUrl) {
        url := urljoin(prefixUrl.value, "/" + RStrip(key, '/'));
      } else {
        url := DefaultDomain(bucket) + key;
      }
      if Given(style) {
        url := url + "-" + style.value;
      }
      if isPrivate {
        var expires := PrivateUrlExpires;
        u := PrivateUrl(Auth(), url, expires);
      } else {
        u := PublicUrl(url);
      }
    }
  }

  /** With a non-empty generated key, the key `_token` uses is never empty. */
  lemma TokenKeyNonEmpty(fs: QiniuFs, generated: string, key: Option<string>, expires: int)
    requires generated != ""
    ensures fs.Token(generated, key, expires).1 != ""
    ensures fs.Token(generated, key, expires).0.key != ""
  {
  }

  /**
   * A key that begins with "/" and is not made only of slashes makes the
   * reference handed to urljoin begin with "//", a network-path reference
   * (section 4.2 of RFC 3986). When the part of the key after its leading "/"
   * is non-empty up to the first "/", "?" or "#", urljoin takes that part as
   * the host (section 3.2 of RFC 3986). This lemma states only when the
   * reference begins with "//", not when urljoin takes a host.
   */
  lemma PathReferenceNetworkPath(key: string)
    ensures var ref := PathReference(key);
      (|ref| >= 2 && ref[1] == '/') <==> (|key| >= 1 && key[0] == '/' && RStrip(key, '/') != [])
  {
  }

  /** A key made of slashes only (or empty) yields the root reference "/". */
  lemma PathReferenceRoot(key: string)
    requires forall i :: 0 <= i < |key| ==> key[i] == '/'
    ensures PathReference(key) == "/"
  {
  }
}
