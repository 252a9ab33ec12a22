# qiniufs in Dafny

A model of the qiniufs client library, a thin façade over the Qiniu
object-storage SDK for one bucket, and proofs about it. The library's own
logic is small. The model covers all of it:

- `QiniuPolicy` builds an upload-policy dictionary from eight optional
  arguments (`UploadPolicy`, `policy.dfy`). Each truthy argument goes in under
  its fixed camel-case name; a falsy one (None, `''`, `0`, `False`) is dropped.
  The reference definition `PolicyOf` maps every allow-listed name whose
  argument is truthy to that argument. The constructor's eight guarded
  inserts are proved to build exactly that map.
- `QiniuFS` holds the bucket, the credentials, a URL prefix and an upload
  policy (`Storage`, `storage.dfy`). Its operations assemble the arguments of
  one SDK call and interpret the SDK's `(ret, info)` reply:
  - `_token` uses a generated key when the key is falsy and returns the key it
    used.
  - `upload_data` and `upload_file` default the MIME type to
    `application/octet-stream`. They turn a None `ret` into `UploadError` and
    any other `ret` into `(True, ret)`.
  - `delete_file` and `asyn_file_process` always report True.
  - `get_url` puts a download URL together as a string, from the default
    domain or from `urljoin(prefix, "/" + key.rstrip("/"))`, appends
    `"-" + style` when a style is given, and hands private URLs to the signer
    with a 3600-second lifetime.
- `randbytes` returns hex strings (`RandomHex`, `randbytes.py`'s model in
  `randbytes.dfy`). With an entropy source it is the hex encoding of `n`
  random bytes. For `n >= 0` it is proved to have length `2n`, to contain
  only hex digits and to decode back to the bytes; a negative `n` fails, as
  `os.urandom` does. Without one it is the method of the
  fallback generator `_PRNG`. That method appends 40-character SHA-1 hex
  digests until it has `2n` characters and then cuts to `2n`. The class
  `Prng` keeps the call counter `count`. `RandBytes` is proved to:
  - return exactly `2n` characters for `n >= 0`, all of them hex digits, and `""` for `n < 0`;
  - return a prefix of the chunks it drew, in call order;
  - stop at the first call that reaches `2n` characters;
  - make ceil(2n/40) calls, and none when `n <= 0`.

The SDK is modelled only through the arguments the library passes to it.
An SDK call is a datatype value holding those arguments (`UploadToken`,
`PutDataCall`, `PutStreamCall`, `DeleteCall`, `PfopCall`, `PrivateUrl`).
The SDK's reply is a function the caller passes in. Python's `urljoin` is a
function parameter of `GetUrl`. The generated key (`generated`) is a
parameter of `Token`, `PutData`, `UploadData`, `PutStream` and `UploadFile`.
The SHA-1 digest stream of the fallback generator (`digests`) is the
parameter of the `Prng` constructor.

`qiniu.py` is the same module as `qiniufs.py` with its doc comments in
Chinese. One model serves both. The table below cites `qiniufs.py`, and
"## The same members in qiniu.py" gives the matching lines of `qiniu.py`.

Two things in the code are worth knowing:

- A key that begins with `/` and is not made only of slashes makes the
  reference handed to `urljoin` begin with `//`. When the part of the key
  after its leading `/` is non-empty up to the first `/`, `?` or `#`,
  `urljoin` takes that part as the host (section 3.2 of RFC 3986).
  `Storage.PathReferenceNetworkPath` states when the reference begins with
  `//`; it says nothing about when `urljoin` takes a host. Whether it is intended cannot be told from the source, so it
  is not reported as a finding.
- Without a prefix, the key is appended as given: its trailing slashes stay.
  With a prefix they are stripped.

## Model

| member | source | states |
|---|---|---|
| `UploadPolicy.QiniuPolicy.constructor` | qiniufs.py:129-158 | the bucket is stored on the object, and the policy dictionary built by the eight guarded inserts equals `PolicyOf` of the eight options, in which the bucket does not occur |
| `UploadPolicy.GuardedInsertsBuildPolicy` | qiniufs.py:140-158 | starting from `{}`, inserting each option under its name only when it is truthy, in source order, yields exactly the map of every allow-listed name with a truthy option to that option |
| `UploadPolicy.PolicyHasOptionIff` | qiniufs.py:143-158 | for each of the eight options, its key `callbackUrl` … `deleteAfterDays` is in the policy if and only if the option is truthy, and then maps to the option's value |
| `UploadPolicy.PolicyKeysAllowed` | qiniufs.py:140-158 | the policy's keys are a subset of the eight allow-listed names, every stored value is truthy, and the policy has at most eight entries |
| `UploadPolicy.NoOptionsEmptyPolicy` | qiniufs.py:129-140 | with every option left at None the policy is the empty dictionary |
| `UploadPolicy.FalsyOptionsDropped` | qiniufs.py:143-158 | falsy values are dropped, not stored: `delete_after_days=0` or `callback_url=''` adds no entry, and no name whose option is falsy is present |
| `UploadPolicy.PolicyOmitsBucket` | qiniufs.py:140-141 | the policy never holds the bucket, neither as `bucket` nor as `scope` |
| `UploadPolicy.InsertIf` | qiniufs.py:143-158 | one `if option: policy[name] = option` step: a truthy value adds its key with that value, a falsy one leaves the policy as it was, and every other key keeps its value |
| `UploadPolicy.InsertStep` | qiniufs.py:143-144 | one guarded insert on a policy built from some names gives the policy built from those names plus one |
| `Python.RStrip` | qiniufs.py:110 | `key.rstrip('/')` is a prefix of the key that does not end in `/`, and everything it removes is `/` |
| `Python.RStripUnique` | qiniufs.py:110 | any prefix with those three properties is the stripped key, so the contract fixes the result |
| `Python.RStripIdempotent` | qiniufs.py:110 | stripping a stripped key changes nothing |
| `Python.SliceTo` | randbytes.py:37 | `s[:k]` is a prefix of `s`, of length `k` when `0 <= k <= len(s)`, the whole of `s` when `k >= len(s)`, and `len(s) + k` long (not below 0) for negative `k` |
| `Storage.QiniuFs.constructor` | qiniufs.py:23-28 | the five attributes are stored as given, the policy defaulting to None |
| `Storage.QiniuFs.Repr` | qiniufs.py:30-31 | `repr()` is `<QiniuFS `, the bucket name, then `>` |
| `Storage.QiniuFs.Auth` | qiniufs.py:33-35 | the SDK's `Auth` object is built from this object's access key and secret key |
| `Python.Or` | qiniufs.py:41 | `x or default` on an optional string (the `key or …` default here and the `mime_type or 'application/octet-stream'` defaults at qiniufs.py lines 58 and 76): a given, non-empty value is kept, and `None` or `""` is replaced by the default |
| `Storage.QiniuFs.Token` | qiniufs.py:37-44 | a truthy key is used as given, a falsy one is replaced by the generated key; the token is issued for this bucket, this policy, these credentials, the given lifetime (3600 by default) and the key returned beside it |
| `Storage.TokenKeyNonEmpty` | qiniufs.py:41 | when the key generator yields a non-empty key, the key `_token` uses and returns is never empty |
| `Storage.QiniuFs.PutData` | qiniufs.py:57-59 | `put_data` receives the token for the key used, with the default 3600 s lifetime, that same key, the data, and the MIME type or `application/octet-stream` when it is falsy |
| `Storage.UploadOutcome` | qiniufs.py:60-62 | an upload fails with `UploadError` carrying the SDK's info exactly when `ret` is None, and otherwise returns `(True, ret)` |
| `Storage.QiniuFs.UploadData` | qiniufs.py:46-62 | `upload_data` raises `UploadError(info)` exactly when put_data's `ret` is None and otherwise returns `(True, ret)` |
| `Storage.QiniuFs.PutStream` | qiniufs.py:75-79 | `put_stream` receives the token for the key used, that key, the file, its size as the length of its whole content, and the MIME type or its default; the progress callback is not modelled |
| `Storage.QiniuFs.UploadFile` | qiniufs.py:64-82 | `upload_file` raises `UploadError(info)` exactly when put_stream's `ret` is None and otherwise returns `(True, ret)` |
| `Storage.QiniuFs.DeleteFile` | qiniufs.py:84-91 | `delete_file` deletes the key in this bucket with these credentials, never fails and returns True with the SDK's `ret`, None included |
| `Storage.QiniuFs.AsynFileProcess` | qiniufs.py:93-102 | `asyn_file_process` submits exactly the one operation `[fops]`, forced, for this bucket and pipeline, never fails and returns True with the SDK's `ret` |
| `Storage.PathReference` | qiniufs.py:109-110 | the reference joined onto the prefix starts with `/`, followed by the key with all its trailing `/` removed |
| `Storage.DefaultDomain` | qiniufs.py:112 | the URL used without a prefix is `http://`, then the bucket name, then `.qiniudn.com/` |
| `Storage.QiniuFs.GetUrl` | qiniufs.py:104-122 | without a prefix the URL is `"http://" + bucket + ".qiniudn.com/" + key`, with one it is `urljoin(prefix, "/" + key.rstrip('/'))`; a truthy style appends `"-" + style` and a falsy one changes nothing; the URL is signed exactly when `is_private`, with a lifetime of 3600 s; `scheme` does not affect the result; without a prefix or style the URL ends with the key unchanged, trailing `/` included |
| `Storage.PathReferenceNetworkPath` | qiniufs.py:110 | the joined reference begins with `//` exactly when the key begins with `/` and is not made of slashes only |
| `Storage.PathReferenceRoot` | qiniufs.py:110 | a key made only of slashes, or empty, gives the reference `/` |
| `RandomHex.Hexlify` | randbytes.py:9-11 | the hex encoding has two characters per byte, all of them lower-case hex digits |
| `RandomHex.UnhexlifyHexlify` | randbytes.py:11 | the hex encoding decodes back to the bytes it encodes, so no two byte strings share an encoding |
| `RandomHex.RandBytes` | randbytes.py:8-15 | `randbytes(n)` fails exactly when `n` is negative (`os.urandom` raises ValueError); otherwise, from the `n` bytes of entropy, it is a hex string of exactly `2n` characters that decodes back to those bytes (the `os.urandom` branch, and the `/dev/urandom` branch for `n >= 0`) |
| `RandomHex.ChunksCons` | randbytes.py:35-36 | the chunks appended in call order are the first chunk followed by the chunks of the later calls |
| `RandomHex.CallsNeededIsLeast` | randbytes.py:34-36 | the number of calls the loop makes is the least number of chunks whose concatenation reaches `2n` characters |
| `RandomHex.CallsNeededDigests` | randbytes.py:34-36 | with 40-character chunks, reaching `t > 0` characters takes ceil(t/40) calls, and `t <= 0` takes none |
| `RandomHex.ChunksHex` | randbytes.py:29-36 | chunks that are hex digests concatenate to a hex string |
| `RandomHex.PrefixHex` | randbytes.py:37 | cutting a hex string keeps it hex |
| `RandomHex.Prng.constructor` | randbytes.py:21-23 | a new generator has `count == 0` |
| `RandomHex.Prng.GetBytes` | randbytes.py:25-29 | each call returns the digest for the current call number, which is 40 hex characters, and increments `count` by exactly one |
| `RandomHex.Prng.RandBytes` | randbytes.py:31-37 | the result is the first `2n` characters of the chunks drawn during the call, in call order, and is exactly `2n` hex characters long for `n >= 0`; the loop stops at the first call that reaches `2n` characters, so `count` grows by ceil(2n/40); for `n <= 0` it returns `""` without drawing |

## The same members in qiniu.py

`qiniu.py` has the same code. Lines 1-126 match `qiniufs.py` line for line.
From `qiniufs.py:127` on, `qiniu.py` is one line further down, because the
`QiniuPolicy` doc comment has one more line there (`qiniu.py:127`). The members above model `qiniu.py` at:

| member | qiniu.py |
|---|---|
| `UploadPolicy.QiniuPolicy.constructor` | 130-159 |
| `UploadPolicy.GuardedInsertsBuildPolicy` | 141-159 |
| `UploadPolicy.PolicyHasOptionIff` | 144-159 |
| `UploadPolicy.PolicyKeysAllowed` | 141-159 |
| `UploadPolicy.NoOptionsEmptyPolicy` | 130-141 |
| `UploadPolicy.FalsyOptionsDropped` | 144-159 |
| `UploadPolicy.PolicyOmitsBucket` | 141-142 |
| `UploadPolicy.InsertStep` | 144-145 |
| `UploadPolicy.InsertIf` | 144-159 |
| `Python.RStrip`, `Python.RStripUnique`, `Python.RStripIdempotent`, `Storage.PathReferenceNetworkPath`, `Storage.PathReferenceRoot` | 110 |
| `Storage.QiniuFs.constructor` | 23-28 |
| `Storage.QiniuFs.Repr` | 30-31 |
| `Storage.QiniuFs.Auth` | 33-35 |
| `Python.Or` | 41, 58, 76 |
| `Storage.QiniuFs.Token` | 37-44 |
| `Storage.TokenKeyNonEmpty` | 41 |
| `Storage.QiniuFs.PutData` | 57-59 |
| `Storage.UploadOutcome` | 60-62 |
| `Storage.QiniuFs.UploadData` | 46-62 |
| `Storage.QiniuFs.PutStream` | 75-79 |
| `Storage.QiniuFs.UploadFile` | 64-82 |
| `Storage.QiniuFs.DeleteFile` | 84-91 |
| `Storage.QiniuFs.AsynFileProcess` | 93-102 |
| `Storage.PathReference` | 109-110 |
| `Storage.DefaultDomain` | 112 |
| `Storage.QiniuFs.GetUrl` | 104-122 |

## Left out

- Signing: `Auth`, `upload_token` and `private_download_url` are HMAC signing inside the SDK. The model keeps their arguments (`UploadToken`, `PrivateUrl`), not the signed strings.
- Network calls: `put_data`, `put_stream`, `BucketManager.delete` and `PersistentFop.execute` are SDK calls. The model takes their reply `(ret, info)` as a function parameter.
- Stream reading in `upload_file`: `file.read()` consumes the stream before `put_stream` receives it. The model passes the file's content and its length; the stream position is not modelled.
- `urlparse.urljoin`: a library function, taken as the parameter `urljoin` of `GetUrl`. Python 2's version does not remove dot segments in the absolute-path case, unlike section 5.2.2 of RFC 3986, so neither rule is built in.
- `randbytes2`: `qiniufs.py` and `qiniu.py` import it (line 9), but `randbytes.py` defines only `randbytes`, so as the files stand that import fails. The generated key is the parameter `generated` of `Token`, `PutData`, `UploadData`, `PutStream` and `UploadFile`. Its length argument 16 is not modelled.
- Entropy: `os.urandom`, `/dev/urandom`, `time.time()`, `time.clock()` and the SHA-1 object. The random bytes are the parameter `entropy` of `RandomHex.RandBytes`. The digests of the fallback generator are the function `digests`, giving the digest of each call number. The generator's `state` attribute and what is fed into it are not modelled.
- Branch selection in `randbytes.py`: which definition of `randbytes` a platform gets (`hasattr(os, 'urandom')`, the existence of `/dev/urandom`) is not modelled; each branch is modelled on its own. The module-level binding `randbytes = _PRNG().randbytes` is one `Prng` object.
- RandomHex.RandBytes: for a negative `n` it models the `os.urandom` branch, which raises ValueError. The `/dev/urandom` branch would instead read until end of file, which that device never reaches, and the fallback generator returns `""`. The non-terminating read is not modelled.
- `put_stream`'s `progress_handler` argument (`lambda progress, total: progress`) is an SDK callback and is not part of `PutStreamCall`.
- `access_key.encode('ascii')` in `_make_auth` raises for non-ASCII keys. The model does not check this.
- Python values: policy options are None, strings, integers or booleans. Lists, floats and other values are not modelled.
- Unknown keyword arguments to `QiniuPolicy` raise `TypeError` in Python. In the model the constructor's fixed parameter list rules them out statically. The code does no allow-list validation beyond its fixed keyword parameters; the model follows the code.
- `datetime.timedelta(hours=1)` is modelled only as the constant `60 * 60`.
- `UploadError` is modelled by the SDK's info alone. Its `ret` argument is always None where it is raised.
- `setup.py` is packaging metadata and is not part of this model.
