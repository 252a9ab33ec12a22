/**
 * The upload policy: the dictionary of server-side rules (callbacks, return
 * page, persistent processing, lifetime) attached to an upload token.
 */
module UploadPolicy {
  import opened Python

  /** An upload policy as the SDK receives it: option name to value. */
  type PutPolicy = map<string, Value>

  const CallbackUrl := "callbackUrl"
  const CallbackBody := "callbackBody"
  const ReturnUrl := "returnUrl"
  const ReturnBody := "returnBody"
  const PersistentOps := "persistentOps"
  const PersistentNotifyUrl := "persistentNotifyUrl"
  const PersistentPipeline := "persistentPipeline"
  const DeleteAfterDays := "deleteAfterDays"

  /** The allow-list: the only names a policy built here can hold. */
  const OptionNames: set<string> := {
    CallbackUrl, CallbackBody, ReturnUrl, ReturnBody,
    PersistentOps, PersistentNotifyUrl, PersistentPipeline, DeleteAfterDays
  }

  /** The eight optional keyword arguments of the policy constructor. */
  datatype Options = Options(
    callbackUrl: Value,
    callbackBody: Value,
    returnUrl: Value,
    returnBody: Value,
    persistentOps: Value,
    persistentNotifyUrl: Value,
    persistentPipeline: Value,
    deleteAfterDays: Value)

  /** Every option omitted (each keyword argument left at None). */
  const NoOptions := Options(PyNone, PyNone, PyNone, PyNone, PyNone, PyNone, PyNone, PyNone)

  /** The argument whose value is stored under the policy key `name`. */
  function OptionFor(o: Options, name: string): Value
    requires name in OptionNames
  {
    if name == CallbackUrl then o.callbackUrl
    else if name == CallbackBody then o.callbackBody
    else if name == ReturnUrl then o.returnUrl
    else if name == ReturnBody then o.returnBody
    else if name == PersistentOps then o.persistentOps
    else if name == PersistentNotifyUrl then o.persistentNotifyUrl
    else if name == PersistentPipeline then o.persistentPipeline
    else o.deleteAfterDays
  }

  /** The argument behind each allow-listed name, stated once. */
  lemma OptionForNames(o: Options)
    ensures OptionFor(o, CallbackUrl) == o.callbackUrl
    ensures OptionFor(o, CallbackBody) == o.callbackBody
    ensures OptionFor(o, ReturnUrl) == o.returnUrl
    ensures OptionFor(o, ReturnBody) == o.returnBody
    ensures OptionFor(o, PersistentOps) == o.persistentOps
    ensures OptionFor(o, PersistentNotifyUrl) == o.persistentNotifyUrl
    ensures OptionFor(o, PersistentPipeline) == o.persistentPipeline
    ensures OptionFor(o, DeleteAfterDays) == o.deleteAfterDays
  {
  }

  /**
   * Reference definition of the policy: every allow-listed name whose
   * argument is truthy, mapped to that argument.
   */
  function PolicyOf(o: Options): PutPolicy {
    PolicyOver(o, OptionNames)
  }

  /** The part of the policy contributed by the allow-listed names in `names`. */
  function PolicyOver(o: Options, names: set<string>): PutPolicy
    requires names <= OptionNames
  {
    map name | name in names && Truthy(OptionFor(o, name)) :: OptionFor(o, name)
  }

  /** One guarded insert extends the policy by one allow-listed name. */
  lemma InsertStep(o: Options, names: set<string>, name: string)
    requires names <= OptionNames && name in OptionNames
    ensures PolicyOver(o, names + {name}) == InsertIf(PolicyOver(o, names), name, OptionFor(o, name))
  {
  }

  /**
   * QiniuPolicy: holds the bucket and the policy dictionary. The constructor
   * starts from the empty dictionary and inserts each option under its
   * camel-case name only when the option is truthy; the bucket is stored
   * beside the dictionary, never in it.
   */
  class QiniuPolicy {
    var policy: PutPolicy
    var bucket: string

    constructor (
      bucket: string,
      callbackUrl: Value := PyNone,
      callbackBody: Value := PyNone,
      returnUrl: Value := PyNone,
      returnBody: Value := PyNone,
      persistentOps: Value := PyNone,
      persistentNotifyUrl: Value := PyNone,
      persistentPipeline: Value := PyNone,
      deleteAfterDays: Value := PyNone)
      ensures this.bucket == bucket
      ensures policy == PolicyOf(Options(callbackUrl, callbackBody, returnUrl, returnBody,
                                         persistentOps, persistentNotifyUrl, persistentPipeline,
                                         deleteAfterDays))
    {
      this.bucket := bucket;
      var p: PutPolicy := map[];
      p := InsertIf(p, CallbackUrl, callbackUrl);
      p := InsertIf(p, CallbackBody, callbackBody);
      p := InsertIf(p, ReturnUrl, returnUrl);
      p := InsertIf(p, ReturnBody, returnBody);
      p := InsertIf(p, PersistentOps, persistentOps);
      p := InsertIf(p, PersistentNotifyUrl, persistentNotifyUrl);
      p := InsertIf(p, PersistentPipeline, persistentPipeline);
      p := InsertIf(p, DeleteAfterDays, deleteAfterDays);
      policy := p;
      GuardedInsertsBuildPolicy(Options(callbackUrl, callbackBody, returnUrl, returnBody,
                                        persistentOps, persistentNotifyUrl, persistentPipeline,
                                        deleteAfterDays));
    }
  }

  /** `if v: p[name] = v`, as a value. */
  function InsertIf(p: PutPolicy, name: string, v: Value): (r: PutPolicy)
    ensures r.Keys == if Truthy(v) then p.Keys + {name} else p.Keys
    ensures forall k :: k in r ==> r[k] == if k == name && Truthy(v) then v else p[k]
  {
    if Truthy(v) then p[name := v] else p
  }

  /** The constructor's eight guarded inserts, in source order, applied to the empty dictionary. */
  function GuardedInserts(o: Options): PutPolicy {
    var p1 := InsertIf(map[], CallbackUrl, o.callbackUrl);
    var p2 := InsertIf(p1, CallbackBody, o.callbackBody);
    var p3 := InsertIf(p2, ReturnUrl, o.returnUrl);
    var p4 := InsertIf(p3, ReturnBody, o.returnBody);
    var p5 := InsertIf(p4, PersistentOps, o.persistentOps);
    var p6 := InsertIf(p5, PersistentNotifyUrl, o.persistentNotifyUrl);
    var p7 := InsertIf(p6, PersistentPipeline, o.persistentPipeline);
    InsertIf(p7, DeleteAfterDays, o.deleteAfterDays)
  }

  /** The sequence of guarded inserts builds exactly the reference policy. */
  lemma GuardedInsertsBuildPolicy(o: Options)
    ensures GuardedInserts(o) == PolicyOf(o)
  {
    OptionForNames(o);
    // names0 .. names8: the allow-listed names handled after each insert
    ghost var names0: set<string> := {};
    assert PolicyOver(o, names0) == map[];
    ghost var names1 := names0 + {CallbackUrl};
    InsertStep(o, names0, CallbackUrl);
    ghost var names2 := names1 + {CallbackBody};
    InsertStep(o, names1, CallbackBody);
    ghost var names3 := names2 + {ReturnUrl};
    InsertStep(o, names2, ReturnUrl);
    ghost var names4 := names3 + {ReturnBody};
    InsertStep(o, names3, ReturnBody);
    ghost var names5 := names4 + {PersistentOps};
    InsertStep(o, names4, PersistentOps);
    ghost var names6 := names5 + {PersistentNotifyUrl};
    InsertStep(o, names5, PersistentNotifyUrl);
    ghost var names7 := names6 + {PersistentPipeline};
    InsertStep(o, names6, PersistentPipeline);
    ghost var names8 := names7 + {DeleteAfterDays};
    InsertStep(o, names7, DeleteAfterDays);
    assert names8 == OptionNames;
  }

  /** Each option's key is present exactly when the option is truthy, holding the option. */
  lemma PolicyHasOptionIff(o: Options)
    ensures var p := PolicyOf(o);
      && (CallbackUrl in p <==> Truthy(o.callbackUrl))
      && (CallbackBody in p <==> Truthy(o.callbackBody))
      && (ReturnUrl in p <==> Truthy(o.returnUrl))
      && (ReturnBody in p <==> Truthy(o.returnBody))
      && (PersistentOps in p <==> Truthy(o.persistentOps))
      && (PersistentNotifyUrl in p <==> Truthy(o.persistentNotifyUrl))
      && (PersistentPipeline in p <==> Truthy(o.persistentPipeline))
      && (DeleteAfterDays in p <==> Truthy(o.deleteAfterDays))
    ensures var p := PolicyOf(o);
      && (CallbackUrl in p ==> p[CallbackUrl] == o.callbackUrl)
      && (CallbackBody in p ==> p[CallbackBody] == o.callbackBody)
      && (ReturnUrl in p ==> p[ReturnUrl] == o.returnUrl)
      && (ReturnBody in p ==> p[ReturnBody] == o.returnBody)
      && (PersistentOps in p ==> p[PersistentOps] == o.persistentOps)
      && (PersistentNotifyUrl in p ==> p[PersistentNotifyUrl] == o.persistentNotifyUrl)
      && (PersistentPipeline in p ==> p[PersistentPipeline] == o.persistentPipeline)
      && (DeleteAfterDays in p ==> p[DeleteAfterDays] == o.deleteAfterDays)
  {
  }

  /** The policy never holds a name outside the allow-list, and every value it holds is truthy. */
  lemma PolicyKeysAllowed(o: Options)
    ensures PolicyOf(o).Keys <= OptionNames
    ensures forall name :: name in PolicyOf(o) ==> Truthy(PolicyOf(o)[name])
    ensures |PolicyOf(o)| <= 8
  {
    var p := PolicyOf(o);
    assert |OptionNames| == 8;
    assert p.Keys <= OptionNames;
    SubsetCard(p.Keys, OptionNames);
  }

  lemma SubsetCard(a: set<string>, b: set<string>)
    requires a <= b
    ensures |a| <= |b|
  {
    assert b == a + (b - a);
  }

  /** With every option omitted the policy is empty. */
  lemma NoOptionsEmptyPolicy()
    ensures PolicyOf(NoOptions) == map[]
  {
  }

  /**
   * Falsy values are dropped rather than stored: a lifetime of 0 days or an
   * empty callback URL adds no entry, whatever the other options are.
   */
  lemma FalsyOptionsDropped(o: Options)
    ensures DeleteAfterDays !in PolicyOf(o.(deleteAfterDays := PyInt(0)))
    ensures CallbackUrl !in PolicyOf(o.(callbackUrl := PyStr("")))
    ensures forall name :: name in OptionNames && !Truthy(OptionFor(o, name)) ==> name !in PolicyOf(o)
  {
  }

  /**
   * The bucket is kept out of the policy: the constructor's dictionary is
   * PolicyOf of the eight options alone, and it never holds a bucket entry
   * (neither under "bucket" nor under the service's own name for it, "scope").
   */
  lemma PolicyOmitsBucket(o: Options)
    ensures "bucket" !in PolicyOf(o) && "scope" !in PolicyOf(o)
  {
  }
}
