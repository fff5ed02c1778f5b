/** The drift comparator of the CloudFormation stackset pipeline
    (cfn-pipeline--02-compare/index.py): every template under `cf-stacks/`
    in the bucket names a stackset; a stackset whose template or parameters
    differ from what CloudFormation holds is flagged for redeployment. The
    S3 listing, the S3 objects (parameter files already parsed) and the
    `describe_stack_set` answers are inputs. */
module StacksetCompare {
  import opened Wrappers
  import opened Sequences
  import Strings

  const STACKSET_PREFIX := "ised-"
  const TEMPLATE_FOLDER := "cf-stacks/"
  const PARAMETER_FOLDER := "cf-parameters/"
  const MASKED_VALUE := "****"
  const NOTHING_TO_DEPLOY := "All templates and parameters are the same. Nothing to deploy."
  const APPROVAL_PREFIX := "Approving this change will run the following stacksets: "
  const CONTENTS_KEY_ERROR := "KeyError: 'Contents'"
  const SPLIT_INDEX_ERROR := "IndexError: list index out of range"
  const JOB_KEY_ERROR := "KeyError: 'CodePipeline.job'"

  function NoSuchKey(key: string): string
  {
    "NoSuchKey: " + key
  }

  datatype Parameter = Parameter(parameterKey: string, parameterValue: string)

  /** The `StackSet` part of a `describe_stack_set` answer. */
  datatype StackSetDescription = StackSetDescription(templateBody: string, parameters: seq<Parameter>)

  /** One page of `list_objects_v2`; `contents` is None when the page has no
      "Contents" entry, and holds the object keys otherwise. */
  datatype ListingPage = ListingPage(contents: Option<seq<string>>)

  /** What the AWS services answer: a stackset name absent from
      `stackSets` is one CloudFormation reports as not found; an S3 key absent
      from `templates` or `parameterFiles` is a missing object. */
  datatype Environment = Environment(
    stackSets: map<string, StackSetDescription>,
    templates: map<string, string>,
    parameterFiles: map<string, seq<Parameter>>)

  datatype StacksetRecord = StacksetRecord(name: string, filename: string, parameters: string)

  /** The record derived from one S3 key. */
  function StacksetFromKey(key: string): (r: Result<StacksetRecord, string>)
    ensures r.Failure? <==> '/' !in key
    ensures r.Failure? ==> r.error == SPLIT_INDEX_ERROR
  {
    var parts := Strings.Split(key, '/');
    if |parts| < 2 then
      assert '/' !in key by {
        Strings.JoinSplit(key, '/');
        assert key == parts[0];
      }
      Failure(SPLIT_INDEX_ERROR)
    else
      assert '/' in key by {
        SplitHasMoreThanOnePieceOnlyWithSeparator(key);
      }
      var filename := parts[1];
      var baseFilename := Strings.Split(filename, '.')[0];
      Success(StacksetRecord(STACKSET_PREFIX + baseFilename, filename, baseFilename + ".json"))
  }

  lemma SplitHasMoreThanOnePieceOnlyWithSeparator(key: string)
    requires |Strings.Split(key, '/')| >= 2
    ensures '/' in key
  {
    if '/' !in key {
      Strings.SplitWithout(key, '/');
    }
  }

  /** For `cf-stacks/F`: the filename is `F` up to its next `/` (all of `F`
      when it has none), the base is the filename up to its first `.`, the
      stackset is `ised-` + base and the parameter file is base + `.json`. */
  lemma {:induction false} StacksetFromTemplateKey(f: string)
    ensures var filename := Strings.Split(f, '/')[0];
      var base := Strings.Split(filename, '.')[0];
      && StacksetFromKey(TEMPLATE_FOLDER + f) == Success(StacksetRecord("ised-" + base, filename, base + ".json"))
      && filename <= f && ('/' !in f ==> filename == f)
      && base <= filename
      && '.' !in base
      && (|base| < |filename| ==> filename[|base|] == '.')
  {
    var folder := "cf-stacks";
    assert '/' !in folder;
    assert TEMPLATE_FOLDER + f == folder + ['/'] + f;
    Strings.SplitAfterFirst(folder, '/', f);
    assert Strings.Split(TEMPLATE_FOLDER + f, '/')[1] == Strings.Split(f, '/')[0];
    Strings.SplitFirstPiece(f, '/');
    if '/' !in f {
      Strings.SplitWithout(f, '/');
    }
    Strings.SplitFirstPiece(Strings.Split(f, '/')[0], '.');
  }

  /** The case of the source's comments: `cf-stacks/backup.yaml` gives the
      stackset `ised-backup`, the filename `backup.yaml` and the parameter
      file `backup.json`. */
  lemma {:induction false} TemplateKeyWithExtension(base: string, ext: string)
    requires '.' !in base && '/' !in base && '/' !in ext
    ensures StacksetFromKey(TEMPLATE_FOLDER + (base + "." + ext))
      == Success(StacksetRecord(STACKSET_PREFIX + base, base + "." + ext, base + ".json"))
  {
    var f := base + "." + ext;
    assert '/' !in f;
    Strings.SplitWithout(f, '/');
    Strings.SplitAfterFirst(base, '.', ext);
    assert Strings.Split(f, '.')[0] == base;
    StacksetFromTemplateKey(f);
  }

  /** The records of a list of keys, in order, or the first error. */
  function RecordsFromKeys(keys: seq<string>): Result<seq<StacksetRecord>, string>
  {
    if |keys| == 0 then Success([])
    else
      match RecordsFromKeys(keys[..|keys| - 1])
      case Failure(e) => Failure(e)
      case Success(records) =>
        match StacksetFromKey(keys[|keys| - 1])
        case Failure(e) => Failure(e)
        case Success(record) => Success(records + [record])
  }

  /** The records of all listing pages, in order, or the first error. */
  function RecordsFromPages(pages: seq<ListingPage>): Result<seq<StacksetRecord>, string>
  {
    if |pages| == 0 then Success([])
    else
      match RecordsFromPages(pages[..|pages| - 1])
      case Failure(e) => Failure(e)
      case Success(records) =>
        match pages[|pages| - 1].contents
        case None => Failure(CONTENTS_KEY_ERROR)
        case Some(keys) =>
          match RecordsFromKeys(keys)
          case Failure(e) => Failure(e)
          case Success(more) => Success(records + more)
  }

  /** One record per key, in listing order, when no key lacks a `/`. */
  lemma {:induction false} RecordsFromKeysOnePerKey(keys: seq<string>)
    ensures RecordsFromKeys(keys).Success? <==> forall i :: 0 <= i < |keys| ==> '/' in keys[i]
    ensures RecordsFromKeys(keys).Success? ==>
      |RecordsFromKeys(keys).value| == |keys|
      && forall i :: 0 <= i < |keys| ==> RecordsFromKeys(keys).value[i] == StacksetFromKey(keys[i]).value
  {
    if |keys| > 0 {
      var init := keys[..|keys| - 1];
      RecordsFromKeysOnePerKey(init);
      assert forall i :: 0 <= i < |init| ==> init[i] == keys[i];
    }
  }

  /** A page the listing loop gets through: it has `Contents`, and every key
      in it has a `/`. */
  predicate PageListable(page: ListingPage)
  {
    page.contents.Some? && forall i :: 0 <= i < |page.contents.value| ==> '/' in page.contents.value[i]
  }

  /** The keys the pages list, page after page; a page without `Contents`
      lists none. */
  function ListedKeys(pages: seq<ListingPage>): seq<string>
  {
    if |pages| == 0 then []
    else
      var keys := if pages[|pages| - 1].contents.Some? then pages[|pages| - 1].contents.value else [];
      ListedKeys(pages[..|pages| - 1]) + keys
  }

  /** The listing succeeds exactly when every page is listable, and then
      gives one record per listed key. */
  lemma {:induction false} RecordsFromPagesOnePerKey(pages: seq<ListingPage>)
    ensures RecordsFromPages(pages).Success? <==> forall p :: 0 <= p < |pages| ==> PageListable(pages[p])
    ensures RecordsFromPages(pages).Success? ==> |RecordsFromPages(pages).value| == |ListedKeys(pages)|
  {
    if |pages| > 0 {
      var init := pages[..|pages| - 1];
      var last := pages[|pages| - 1];
      RecordsFromPagesOnePerKey(init);
      assert forall p :: 0 <= p < |init| ==> init[p] == pages[p];
      if last.contents.Some? {
        RecordsFromKeysOnePerKey(last.contents.value);
      }
    }
  }

  /** The records of two lists of keys one after the other: the first error
      of the first list, else the first error of the second, else both
      lists of records joined. */
  lemma {:induction false} RecordsFromKeysAppend(a: seq<string>, b: seq<string>)
    ensures RecordsFromKeys(a + b)
      == match RecordsFromKeys(a)
         case Failure(e) => Failure(e)
         case Success(first) =>
           match RecordsFromKeys(b)
           case Failure(e) => Failure(e)
           case Success(second) => Success(first + second)
  {
    if |b| == 0 {
      assert a + b == a;
      if RecordsFromKeys(a).Success? {
        assert RecordsFromKeys(a).value + [] == RecordsFromKeys(a).value;
      }
    } else {
      var init := b[..|b| - 1];
      assert (a + b)[..|a + b| - 1] == a + init;
      assert (a + b)[|a + b| - 1] == b[|b| - 1];
      RecordsFromKeysAppend(a, init);
      match RecordsFromKeys(a)
      case Failure(_) =>
      case Success(first) =>
        match RecordsFromKeys(init)
        case Failure(_) =>
        case Success(middle) =>
          match StacksetFromKey(b[|b| - 1])
          case Failure(_) =>
          case Success(record) =>
            assert first + middle + [record] == first + (middle + [record]);
    }
  }

  /** When every page has `Contents`, listing page by page gives the records
      of all the listed keys, or the same first error. */
  lemma {:induction false} RecordsFromPagesAreRecordsFromListedKeys(pages: seq<ListingPage>)
    requires forall p :: 0 <= p < |pages| ==> pages[p].contents.Some?
    ensures RecordsFromPages(pages) == RecordsFromKeys(ListedKeys(pages))
  {
    if |pages| > 0 {
      var init := pages[..|pages| - 1];
      assert forall p :: 0 <= p < |init| ==> init[p] == pages[p];
      RecordsFromPagesAreRecordsFromListedKeys(init);
      RecordsFromKeysAppend(ListedKeys(init), pages[|pages| - 1].contents.value);
    }
  }

  /** An error met on a prefix of the keys is the error of all of them. */
  lemma {:induction false} RecordsFromKeysFailurePersists(keys: seq<string>, n: int)
    requires 0 <= n <= |keys| && RecordsFromKeys(keys[..n]).Failure?
    ensures RecordsFromKeys(keys) == RecordsFromKeys(keys[..n])
  {
    if n < |keys| {
      var init := keys[..|keys| - 1];
      assert init[..n] == keys[..n];
      RecordsFromKeysFailurePersists(init, n);
    } else {
      assert keys[..n] == keys;
    }
  }

  /** An error met on a prefix of the pages is the error of all of them. */
  lemma {:induction false} RecordsFromPagesFailurePersists(pages: seq<ListingPage>, n: int)
    requires 0 <= n <= |pages| && RecordsFromPages(pages[..n]).Failure?
    ensures RecordsFromPages(pages) == RecordsFromPages(pages[..n])
  {
    if n < |pages| {
      var init := pages[..|pages| - 1];
      assert init[..n] == pages[..n];
      RecordsFromPagesFailurePersists(init, n);
    } else {
      assert pages[..n] == pages;
    }
  }

  /** The dictionary of the S3 parameter file; a later entry for the same key
      overwrites an earlier one. */
  function ParamDict(params: seq<Parameter>): (d: map<string, string>)
    ensures forall k :: k in d <==> exists i :: 0 <= i < |params| && params[i].parameterKey == k
  {
    if |params| == 0 then map[]
    else
      var init := params[..|params| - 1];
      var last := params[|params| - 1];
      assert forall i :: 0 <= i < |init| ==> init[i] == params[i];
      ParamDict(init)[last.parameterKey := last.parameterValue]
  }

  /** The entry of the parameter file that no later entry overrides is the
      value the dictionary holds. */
  lemma {:induction false} ParamDictLastWins(params: seq<Parameter>, i: int)
    requires 0 <= i < |params|
    requires forall j :: i < j < |params| ==> params[j].parameterKey != params[i].parameterKey
    ensures ParamDict(params)[params[i].parameterKey] == params[i].parameterValue
  {
    if i < |params| - 1 {
      var init := params[..|params| - 1];
      assert init[i] == params[i];
      ParamDictLastWins(init, i);
    }
  }

  /** The dictionary-building loop. */
  method BuildParamDict(params: seq<Parameter>) returns (d: map<string, string>)
    ensures d == ParamDict(params)
  {
    d := map[];
    var i := 0;
    while i < |params|
      invariant 0 <= i <= |params|
      invariant d == ParamDict(params[..i])
    {
      assert params[..i + 1][..i] == params[..i];
      d := d[params[i].parameterKey := params[i].parameterValue];
      i := i + 1;
    }
    assert params[..i] == params;
  }

  /** A CloudFormation parameter agrees with the S3 file when it is masked
      or the file holds the same value for its key. */
  predicate Agrees(p: Parameter, fromS3: map<string, string>)
  {
    p.parameterValue == MASKED_VALUE || (p.parameterKey in fromS3 && fromS3[p.parameterKey] == p.parameterValue)
  }

  /** `i` is the first position whose parameter does not agree. */
  predicate FirstDisagreementAt(fromCfn: seq<Parameter>, fromS3: map<string, string>, i: int)
  {
    0 <= i < |fromCfn| && !Agrees(fromCfn[i], fromS3) && forall j :: 0 <= j < i ==> Agrees(fromCfn[j], fromS3)
  }

  /** The comparison of the CloudFormation parameters with the S3 ones: the
      message of the first difference, or None. */
  function FirstParameterDifference(name: string, fromCfn: seq<Parameter>, fromS3: map<string, string>): (r: Option<string>)
    ensures r.None? <==> forall i :: 0 <= i < |fromCfn| ==> Agrees(fromCfn[i], fromS3)
    ensures r.Some? ==> exists i :: (FirstDisagreementAt(fromCfn, fromS3, i)
      && r.value == ParameterMessage(name, fromCfn[i], fromS3))
  {
    if |fromCfn| == 0 then None
    else
      var p := fromCfn[0];
      var rest := FirstParameterDifference(name, fromCfn[1..], fromS3);
      if p.parameterValue == MASKED_VALUE || (p.parameterKey in fromS3 && fromS3[p.parameterKey] == p.parameterValue) then
        FirstDisagreementPastAgreeing(name, fromCfn, fromS3, rest);
        rest
      else
        assert FirstDisagreementAt(fromCfn, fromS3, 0);
        Some(ParameterMessage(name, p, fromS3))
  }

  /** Past a first parameter that agrees, the first difference of the rest is
      the first difference of all, one position further on. */
  lemma FirstDisagreementPastAgreeing(name: string, fromCfn: seq<Parameter>, fromS3: map<string, string>, rest: Option<string>)
    requires |fromCfn| > 0 && Agrees(fromCfn[0], fromS3)
    requires rest.None? <==> forall i :: 0 <= i < |fromCfn[1..]| ==> Agrees(fromCfn[1..][i], fromS3)
    requires rest.Some? ==> exists i :: (FirstDisagreementAt(fromCfn[1..], fromS3, i)
      && rest.value == ParameterMessage(name, fromCfn[1..][i], fromS3))
    ensures rest.None? <==> forall i :: 0 <= i < |fromCfn| ==> Agrees(fromCfn[i], fromS3)
    ensures rest.Some? ==> exists i :: (FirstDisagreementAt(fromCfn, fromS3, i)
      && rest.value == ParameterMessage(name, fromCfn[i], fromS3))
  {
    assert forall i :: 1 <= i < |fromCfn| ==> fromCfn[i] == fromCfn[1..][i - 1];
    if rest.Some? {
      var i :| FirstDisagreementAt(fromCfn[1..], fromS3, i) && rest.value == ParameterMessage(name, fromCfn[1..][i], fromS3);
      assert FirstDisagreementAt(fromCfn, fromS3, i + 1);
    }
  }

  /** The message for a CloudFormation parameter that is missing from, or
      differs from, the S3 file. */
  function ParameterMessage(name: string, p: Parameter, fromS3: map<string, string>): (m: string)
    ensures name + ": different because " <= m
    ensures p.parameterKey !in fromS3 <==> m == name + ": different because diff keys"
    ensures p.parameterKey in fromS3 ==>
      var detail := "(" + p.parameterKey + ": " + p.parameterValue + ")";
      |detail| <= |m| && m[|m| - |detail|..] == detail
  {
    if p.parameterKey !in fromS3 then name + ": different because diff keys"
    else
      var m := name + ": different because params are diff (" + p.parameterKey + ": " + p.parameterValue + ")";
      assert m[|name| + 20] == 'p';
      m
  }

  /** The decision for one stackset. */
  datatype Verdict = NotInCfn | Same | Different(message: string)

  /** The body of the loop over stacksets, for one stackset; a failure is the
      exception an absent S3 object raises. */
  function CompareStackset(stackset: StacksetRecord, env: Environment): (r: Result<Verdict, string>)
    ensures stackset.name !in env.stackSets <==> r == Success(NotInCfn)
    ensures stackset.name in env.stackSets ==>
      var response := env.stackSets[stackset.name];
      var templateKey := TEMPLATE_FOLDER + stackset.filename;
      var parametersKey := PARAMETER_FOLDER + stackset.parameters;
      && (templateKey !in env.templates ==> r == Failure(NoSuchKey(templateKey)))
      && (templateKey in env.templates && response.templateBody != env.templates[templateKey] ==>
            r == Success(Different(stackset.name + ": different because of contents")))
      && (templateKey in env.templates && response.templateBody == env.templates[templateKey] ==>
            && (parametersKey !in env.parameterFiles ==> r == Failure(NoSuchKey(parametersKey)))
            && (parametersKey in env.parameterFiles ==>
                  var fromS3 := env.parameterFiles[parametersKey];
                  && (|response.parameters| != |fromS3| ==>
                        r == Success(Different(stackset.name + ": different because diff nb of params")))
                  && (|response.parameters| == |fromS3| ==>
                        var difference := FirstParameterDifference(stackset.name, response.parameters, ParamDict(fromS3));
                        && (difference.None? ==> r == Success(Same))
                        && (difference.Some? ==> r == Success(Different(difference.value))))))
  {
    if stackset.name !in env.stackSets then Success(NotInCfn)
    else
      var response := env.stackSets[stackset.name];
      var templateKey := TEMPLATE_FOLDER + stackset.filename;
      if templateKey !in env.templates then Failure(NoSuchKey(templateKey))
      else if response.templateBody != env.templates[templateKey] then
        Success(Different(stackset.name + ": different because of contents"))
      else
        var parametersKey := PARAMETER_FOLDER + stackset.parameters;
        if parametersKey !in env.parameterFiles then Failure(NoSuchKey(parametersKey))
        else
          var fromS3 := env.parameterFiles[parametersKey];
          if |response.parameters| != |fromS3| then
            Success(Different(stackset.name + ": different because diff nb of params"))
          else
            match FirstParameterDifference(stackset.name, response.parameters, ParamDict(fromS3))
            case None => Success(Same)
            case Some(m) => Success(Different(m))
  }

  /** A flagged stackset with its message. */
  datatype Flag = Flag(stackset: StacksetRecord, message: string)

  /** The flags for a list of stacksets, in processing order, or the first
      exception. Each stackset contributes at most one flag. */
  function Differences(stacksets: seq<StacksetRecord>, env: Environment): Result<seq<Flag>, string>
  {
    if |stacksets| == 0 then Success([])
    else
      match Differences(stacksets[..|stacksets| - 1], env)
      case Failure(e) => Failure(e)
      case Success(flags) =>
        match CompareStackset(stacksets[|stacksets| - 1], env)
        case Failure(e) => Failure(e)
        case Success(Different(m)) => Success(flags + [Flag(stacksets[|stacksets| - 1], m)])
        case Success(_) => Success(flags)
  }

  function FlaggedStacksets(flags: seq<Flag>): (r: seq<StacksetRecord>)
    ensures |r| == |flags| && forall i :: 0 <= i < |flags| ==> r[i] == flags[i].stackset
  {
    seq(|flags|, i requires 0 <= i < |flags| => flags[i].stackset)
  }

  function FlagMessages(flags: seq<Flag>): (r: seq<string>)
    ensures |r| == |flags| && forall i :: 0 <= i < |flags| ==> r[i] == flags[i].message
  {
    seq(|flags|, i requires 0 <= i < |flags| => flags[i].message)
  }

  /** The comparison of `s` finds a difference. */
  predicate Flagged(s: StacksetRecord, env: Environment)
  {
    CompareStackset(s, env).Success? && CompareStackset(s, env).value.Different?
  }

  /** The last stackset adds itself to the flagged list exactly when its
      comparison finds a difference. */
  lemma DifferencesStep(stacksets: seq<StacksetRecord>, env: Environment)
    requires |stacksets| > 0 && Differences(stacksets, env).Success?
    ensures Differences(stacksets[..|stacksets| - 1], env).Success?
    ensures FlaggedStacksets(Differences(stacksets, env).value)
      == FlaggedStacksets(Differences(stacksets[..|stacksets| - 1], env).value)
         + (if Flagged(stacksets[|stacksets| - 1], env) then [stacksets[|stacksets| - 1]] else [])
  {
    var last := stacksets[|stacksets| - 1];
    var flags := Differences(stacksets[..|stacksets| - 1], env).value;
    match CompareStackset(last, env)
    case Success(Different(m)) =>
      assert FlaggedStacksets(flags + [Flag(last, m)]) == FlaggedStacksets(flags) + [last];
    case Success(_) =>
  }

  /** Every flag is a listed stackset, present in CloudFormation, with the
      message its comparison found; every listed stackset compares without
      error; every difference found is flagged. */
  lemma {:induction false} DifferencesFlagFacts(stacksets: seq<StacksetRecord>, env: Environment)
    requires Differences(stacksets, env).Success?
    ensures var flags := Differences(stacksets, env).value;
      && (forall f :: f in flags ==>
            f.stackset in stacksets && f.stackset.name in env.stackSets
            && CompareStackset(f.stackset, env) == Success(Different(f.message)))
      && (forall s :: s in stacksets ==> CompareStackset(s, env).Success?)
      && (forall s, m :: s in stacksets && CompareStackset(s, env) == Success(Different(m)) ==> Flag(s, m) in flags)
  {
    if |stacksets| > 0 {
      var init := stacksets[..|stacksets| - 1];
      var last := stacksets[|stacksets| - 1];
      DifferencesFlagFacts(init, env);
      assert stacksets == init + [last];
    }
  }

  /** The flags are exactly the stacksets whose comparison found a
      difference, each with its message, in processing order; a stackset
      CloudFormation does not know is never flagged. */
  lemma {:induction false} DifferencesAreTheFlaggedStacksets(stacksets: seq<StacksetRecord>, env: Environment)
    requires Differences(stacksets, env).Success?
    ensures var flags := Differences(stacksets, env).value;
      && |flags| <= |stacksets|
      && IsSubsequence(FlaggedStacksets(flags), stacksets)
      && (forall f :: f in flags ==>
            f.stackset in stacksets && f.stackset.name in env.stackSets
            && CompareStackset(f.stackset, env) == Success(Different(f.message)))
      && (forall s :: s in stacksets ==> CompareStackset(s, env).Success?)
      && (forall s, m :: s in stacksets && CompareStackset(s, env) == Success(Different(m)) ==> Flag(s, m) in flags)
  {
    DifferencesFlagFacts(stacksets, env);
    if |stacksets| > 0 {
      var init := stacksets[..|stacksets| - 1];
      var last := stacksets[|stacksets| - 1];
      DifferencesAreTheFlaggedStacksets(init, env);
      DifferencesStep(stacksets, env);
      assert stacksets == init + [last];
      SubsequenceExtend(FlaggedStacksets(Differences(init, env).value), init, last);
    }
  }

  /** A stackset listed several times is flagged as often as it is listed
      when its comparison finds a difference, and never otherwise. */
  lemma {:induction false} DifferencesKeepMultiplicity(stacksets: seq<StacksetRecord>, env: Environment)
    requires Differences(stacksets, env).Success?
    ensures var flagged := FlaggedStacksets(Differences(stacksets, env).value);
      forall s :: multiset(flagged)[s] == if Flagged(s, env) then multiset(stacksets)[s] else 0
  {
    if |stacksets| > 0 {
      var init := stacksets[..|stacksets| - 1];
      var last := stacksets[|stacksets| - 1];
      DifferencesStep(stacksets, env);
      DifferencesKeepMultiplicity(init, env);
      assert stacksets == init + [last];
      assert multiset(stacksets) == multiset(init) + multiset{last};
    }
  }

  /** An exception met on a prefix of the stacksets ends the whole run. */
  lemma {:induction false} DifferencesFailurePersists(stacksets: seq<StacksetRecord>, env: Environment, n: int)
    requires 0 <= n <= |stacksets| && Differences(stacksets[..n], env).Failure?
    ensures Differences(stacksets, env) == Differences(stacksets[..n], env)
  {
    if n < |stacksets| {
      var init := stacksets[..|stacksets| - 1];
      assert init[..n] == stacksets[..n];
      DifferencesFailurePersists(init, env, n);
    } else {
      assert stacksets[..n] == stacksets;
    }
  }

  /** What the handler signals to CodePipeline. */
  datatype PipelineSignal =
    | NoSignal
    | JobFailure(jobId: string, message: string)
    | JobSuccess(jobId: string, different: seq<StacksetRecord>, differentMsg: string)

  /** What the handler returns (before `json.dumps`), or the exception it raises. */
  datatype HandlerResult =
    | Raised(error: string)
    | ReturnedMessage(signal: PipelineSignal, message: string)
    | ReturnedStacksets(signal: PipelineSignal, stacksets: seq<StacksetRecord>)

  /** The end of the handler, from its flags and the pipeline job id (None
      when the event has no "CodePipeline.job"). */
  function Conclude(flags: seq<Flag>, jobId: Option<string>): (r: HandlerResult)
    ensures |flags| == 0 && jobId.None? ==> r == Raised(JOB_KEY_ERROR)
    ensures |flags| == 0 && jobId.Some? ==>
      r == ReturnedMessage(JobFailure(jobId.value, NOTHING_TO_DEPLOY), NOTHING_TO_DEPLOY)
    ensures |flags| > 0 ==> r.ReturnedStacksets? && r.stacksets == FlaggedStacksets(flags)
    ensures |flags| > 0 && jobId.None? ==> r.signal == NoSignal
    ensures |flags| > 0 && jobId.Some? ==>
      r.signal == JobSuccess(jobId.value, FlaggedStacksets(flags), APPROVAL_PREFIX + Strings.Join(FlagMessages(flags), ", "))
  {
    if |flags| == 0 then
      if jobId.None? then Raised(JOB_KEY_ERROR)
      else ReturnedMessage(JobFailure(jobId.value, NOTHING_TO_DEPLOY), NOTHING_TO_DEPLOY)
    else
      var differentMsg := APPROVAL_PREFIX + Strings.Join(FlagMessages(flags), ", ");
      var signal := if jobId.Some? then JobSuccess(jobId.value, FlaggedStacksets(flags), differentMsg) else NoSignal;
      ReturnedStacksets(signal, FlaggedStacksets(flags))
  }

  /** The whole handler as a function of its inputs. */
  function Handler(pages: seq<ListingPage>, env: Environment, jobId: Option<string>): HandlerResult
  {
    match RecordsFromPages(pages)
    case Failure(e) => Raised(e)
    case Success(stacksets) =>
      match Differences(stacksets, env)
      case Failure(e) => Raised(e)
      case Success(flags) => Conclude(flags, jobId)
  }

  /** The inner listing loop over the keys of one page. */
  method ListPageStacksets(contents: seq<string>) returns (r: Result<seq<StacksetRecord>, string>)
    ensures r == RecordsFromKeys(contents)
  {
    var records: seq<StacksetRecord> := [];
    var i := 0;
    while i < |contents|
      invariant 0 <= i <= |contents|
      invariant RecordsFromKeys(contents[..i]) == Success(records)
    {
      assert contents[..i + 1][..i] == contents[..i];
      var key := contents[i];
      var parts := Strings.Split(key, '/');
      if |parts| < 2 {
        RecordsFromKeysFailurePersists(contents, i + 1);
        return Failure(SPLIT_INDEX_ERROR);
      }
      var filename := parts[1];
      var baseFilename := Strings.Split(filename, '.')[0];
      records := records + [StacksetRecord(STACKSET_PREFIX + baseFilename, filename, baseFilename + ".json")];
      i := i + 1;
    }
    assert contents[..i] == contents;
    r := Success(records);
  }

  /** The listing loop over the pages of `list_objects_v2`. */
  method ListStacksets(pages: seq<ListingPage>) returns (r: Result<seq<StacksetRecord>, string>)
    ensures r == RecordsFromPages(pages)
  {
    var stacksets: seq<StacksetRecord> := [];
    var p := 0;
    while p < |pages|
      invariant 0 <= p <= |pages|
      invariant RecordsFromPages(pages[..p]) == Success(stacksets)
    {
      assert pages[..p + 1][..p] == pages[..p];
      if pages[p].contents.None? {
        RecordsFromPagesFailurePersists(pages, p + 1);
        return Failure(CONTENTS_KEY_ERROR);
      }
      var page := ListPageStacksets(pages[p].contents.value);
      if page.Failure? {
        RecordsFromPagesFailurePersists(pages, p + 1);
        return Failure(page.error);
      }
      stacksets := stacksets + page.value;
      p := p + 1;
    }
    assert pages[..p] == pages;
    r := Success(stacksets);
  }

  /** The loop over the CloudFormation parameters, which stops at the first
      one that does not agree with the S3 dictionary. */
  method CompareParameters(name: string, parametersFromCfn: seq<Parameter>, paramDictFromS3: map<string, string>)
    returns (difference: Option<string>)
    ensures difference == FirstParameterDifference(name, parametersFromCfn, paramDictFromS3)
  {
    var j := 0;
    while j < |parametersFromCfn|
      invariant 0 <= j <= |parametersFromCfn|
      invariant FirstParameterDifference(name, parametersFromCfn, paramDictFromS3)
        == FirstParameterDifference(name, parametersFromCfn[j..], paramDictFromS3)
    {
      var parameter := parametersFromCfn[j];
      assert parametersFromCfn[j..][0] == parameter;
      assert parametersFromCfn[j..][1..] == parametersFromCfn[j + 1..];
      if parameter.parameterValue == MASKED_VALUE {
        j := j + 1;
        continue;
      }
      if parameter.parameterKey !in paramDictFromS3 {
        return Some(name + ": different because diff keys");
      }
      if paramDictFromS3[parameter.parameterKey] != parameter.parameterValue {
        return Some(name + ": different because params are diff ("
          + parameter.parameterKey + ": " + parameter.parameterValue + ")");
      }
      j := j + 1;
    }
    difference := None;
  }

  /** The body of the comparison loop for one stackset. */
  method CompareOne(stackset: StacksetRecord, env: Environment) returns (r: Result<Verdict, string>)
    ensures r == CompareStackset(stackset, env)
  {
    if stackset.name !in env.stackSets {
      return Success(NotInCfn);
    }
    var response := env.stackSets[stackset.name];
    var templateKey := TEMPLATE_FOLDER + stackset.filename;
    if templateKey !in env.templates {
      return Failure(NoSuchKey(templateKey));
    }
    if response.templateBody != env.templates[templateKey] {
      return Success(Different(stackset.name + ": different because of contents"));
    }
    var parametersKey := PARAMETER_FOLDER + stackset.parameters;
    if parametersKey !in env.parameterFiles {
      return Failure(NoSuchKey(parametersKey));
    }
    var parametersFromCfn := response.parameters;
    var parametersFromS3 := env.parameterFiles[parametersKey];
    if |parametersFromCfn| != |parametersFromS3| {
      return Success(Different(stackset.name + ": different because diff nb of params"));
    }
    var paramDictFromS3 := BuildParamDict(parametersFromS3);
    var difference := CompareParameters(stackset.name, parametersFromCfn, paramDictFromS3);
    if difference.Some? {
      return Success(Different(difference.value));
    }
    r := Success(Same);
  }

  /** The comparison loop: `different_stacksets` and `different_message`
      grow together, one entry per flagged stackset. */
  method CompareStacksets(stacksets: seq<StacksetRecord>, env: Environment)
    returns (r: Result<(seq<StacksetRecord>, seq<string>), string>)
    ensures Differences(stacksets, env).Failure? ==> r == Failure(Differences(stacksets, env).error)
    ensures Differences(stacksets, env).Success? ==>
      var flags := Differences(stacksets, env).value;
      r == Success((FlaggedStacksets(flags), FlagMessages(flags)))
  {
    var differentStacksets: seq<StacksetRecord> := [];
    var differentMessage: seq<string> := [];
    ghost var flags: seq<Flag> := [];
    var k := 0;
    while k < |stacksets|
      invariant 0 <= k <= |stacksets|
      invariant Differences(stacksets[..k], env) == Success(flags)
      invariant differentStacksets == FlaggedStacksets(flags)
      invariant differentMessage == FlagMessages(flags)
    {
      assert stacksets[..k + 1][..k] == stacksets[..k];
      var stackset := stacksets[k];
      var verdict := CompareOne(stackset, env);
      if verdict.Failure? {
        DifferencesFailurePersists(stacksets, env, k + 1);
        return Failure(verdict.error);
      }
      if verdict.value.Different? {
        differentMessage := differentMessage + [verdict.value.message];
        differentStacksets := differentStacksets + [stackset];
        flags := flags + [Flag(stackset, verdict.value.message)];
      }
      k := k + 1;
    }
    assert stacksets[..k] == stacksets;
    r := Success((differentStacksets, differentMessage));
  }

  /** `lambda_handler`: the listing loop, then the comparison loop, then the
      pipeline signal. */
  method LambdaHandler(pages: seq<ListingPage>, env: Environment, jobId: Option<string>) returns (r: HandlerResult)
    ensures r == Handler(pages, env, jobId)
  {
    var listed := ListStacksets(pages);
    if listed.Failure? {
      return Raised(listed.error);
    }
    var compared := CompareStacksets(listed.value, env);
    if compared.Failure? {
      return Raised(compared.error);
    }
    var (differentStacksets, differentMessage) := compared.value;
    if |differentStacksets| == 0 {
      if jobId.None? {
        return Raised(JOB_KEY_ERROR);
      }
      return ReturnedMessage(JobFailure(jobId.value, NOTHING_TO_DEPLOY), NOTHING_TO_DEPLOY);
    }
    var differentMsg := Strings.Join(differentMessage, ", ");
    differentMsg := APPROVAL_PREFIX + differentMsg;
    var signal := NoSignal;
    if jobId.Some? {
      signal := JobSuccess(jobId.value, differentStacksets, differentMsg);
    }
    r := ReturnedStacksets(signal, differentStacksets);
  }
}
