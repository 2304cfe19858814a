/** Detection of the execution environment (Google Colab or VS Code/local),
    memoised in two fields of the detector object.

    Whether `import google.colab` succeeds is outside the model: each call
    that may probe receives the outcome the import would have. */
module Environment {
  import opened Common

  /** What `import google.colab` does. */
  datatype ImportOutcome =
    | Imported        // the module is importable: running inside Colab
    | ImportFailed    // ImportError: running elsewhere
    | OtherFailure    // any other exception, which the probe does not catch

  /** The dictionary built by `get_environment_info`. */
  datatype EnvironmentInfo = EnvironmentInfo(
    isColab: bool,
    environment: string,
    supportsJavascript: bool,
    supportsWidgets: bool)

  const ColabName := "Google Colab"
  const LocalName := "VS Code/Local"

  /** The fields of an information record agree with its `isColab` flag. */
  predicate Consistent(info: EnvironmentInfo) {
    && info.environment == (if info.isColab then ColabName else LocalName)
    && info.supportsJavascript == info.isColab
    && info.supportsWidgets
  }

  /** The answer of one probe; None when the exception propagates. */
  function ProbeAnswer(probe: ImportOutcome): (r: Option<bool>)
    ensures r.Some? <==> probe != OtherFailure
    ensures r.Some? ==> (r.value <==> probe == Imported)
  {
    match probe
    case Imported => Some(true)
    case ImportFailed => Some(false)
    case OtherFailure => None
  }

  /** The record built from a detected flag. */
  function InfoFor(isColab: bool): (info: EnvironmentInfo)
    ensures Consistent(info) && info.isColab == isColab
  {
    EnvironmentInfo(isColab, if isColab then ColabName else LocalName, isColab, true)
  }

  /** A consistent record is determined by its flag. */
  lemma ConsistentIsInfoFor(info: EnvironmentInfo)
    requires Consistent(info)
    ensures info == InfoFor(info.isColab)
  {
  }

  class EnvironmentDetector {
    /** `_is_colab`: None until a probe has answered. */
    var isColabCache: Option<bool>
    /** `_environment_info`: None until the record has been built. */
    var infoCache: Option<EnvironmentInfo>
    /** How many times the import has been attempted. */
    ghost var probes: nat

    /** The record, once built, was built from the cached flag. */
    ghost predicate Valid()
      reads this
    {
      infoCache.Some? ==> isColabCache.Some? && infoCache.value == InfoFor(isColabCache.value)
    }

    constructor ()
      ensures Valid()
      ensures isColabCache == None && infoCache == None && probes == 0
    {
      isColabCache := None;
      infoCache := None;
      probes := 0;
    }

    /** `detect_colab_environment`: probes only while nothing is cached;
        None means the probe's exception propagates. */
    method DetectColabEnvironment(probe: ImportOutcome) returns (r: Option<bool>)
      requires Valid()
      modifies this
      ensures Valid()
      ensures infoCache == old(infoCache)
      ensures old(isColabCache).Some? ==>
                r == old(isColabCache) && isColabCache == old(isColabCache) && probes == old(probes)
      ensures old(isColabCache).None? ==>
                r == ProbeAnswer(probe) && isColabCache == r && probes == old(probes) + 1
    {
      if isColabCache.None? {
        probes := probes + 1;
        match probe {
          case Imported => isColabCache := Some(true);
          case ImportFailed => isColabCache := Some(false);
          case OtherFailure => return None;
        }
      }
      r := isColabCache;
    }

    /** `get_environment_info`: builds the record once, then returns it unchanged. */
    method GetEnvironmentInfo(probe: ImportOutcome) returns (r: Option<EnvironmentInfo>)
      requires Valid()
      modifies this
      ensures Valid()
      ensures r.Some? ==> Consistent(r.value) && isColabCache == Some(r.value.isColab)
      ensures r.Some? ==> infoCache == r
      ensures old(infoCache).Some? ==>
                r == old(infoCache) && infoCache == old(infoCache)
                && isColabCache == old(isColabCache) && probes == old(probes)
      ensures old(infoCache).None? && old(isColabCache).Some? ==>
                r == Some(InfoFor(old(isColabCache).value)) && isColabCache == old(isColabCache) && probes == old(probes)
      ensures old(isColabCache).None? ==>
                r == (match ProbeAnswer(probe) case Some(b) => Some(InfoFor(b)) case None => None)
                && isColabCache == ProbeAnswer(probe) && probes == old(probes) + 1
      ensures r.None? ==> infoCache == None && isColabCache == None && probe == OtherFailure
    {
      if infoCache.None? {
        var isColab := DetectColabEnvironment(probe);
        if isColab.None? {
          return None;
        }
        infoCache := Some(InfoFor(isColab.value));
      }
      r := infoCache;
    }

    /** `is_colab`. */
    method IsColab(probe: ImportOutcome) returns (r: Option<bool>)
      requires Valid()
      modifies this
      ensures Valid() && infoCache == old(infoCache)
      ensures r.Some? ==> isColabCache == r
      ensures old(isColabCache).Some? ==>
                r == old(isColabCache) && isColabCache == old(isColabCache) && probes == old(probes)
      ensures old(isColabCache).None? ==>
                r == ProbeAnswer(probe) && isColabCache == r && probes == old(probes) + 1
    {
      r := DetectColabEnvironment(probe);
    }

    /** `is_vscode`: always the negation of what `is_colab` answers. */
    method IsVscode(probe: ImportOutcome) returns (r: Option<bool>)
      requires Valid()
      modifies this
      ensures Valid() && infoCache == old(infoCache)
      ensures r.Some? ==> isColabCache == Some(!r.value)
      ensures old(isColabCache).Some? ==>
                r == Some(!old(isColabCache).value) && isColabCache == old(isColabCache) && probes == old(probes)
      ensures old(isColabCache).None? ==>
                isColabCache == ProbeAnswer(probe) && probes == old(probes) + 1
                && r == (match ProbeAnswer(probe) case Some(b) => Some(!b) case None => None)
    {
      var colab := DetectColabEnvironment(probe);
      r := if colab.Some? then Some(!colab.value) else None;
    }

    /** `supports_javascript`: the same answer as `is_colab`. */
    method SupportsJavascript(probe: ImportOutcome) returns (r: Option<bool>)
      requires Valid()
      modifies this
      ensures Valid() && infoCache == old(infoCache)
      ensures r.Some? ==> isColabCache == r
      ensures r.Some? && infoCache.Some? ==> infoCache.value.supportsJavascript == r.value
      ensures old(isColabCache).Some? ==>
                r == old(isColabCache) && isColabCache == old(isColabCache) && probes == old(probes)
      ensures old(isColabCache).None? ==>
                r == ProbeAnswer(probe) && isColabCache == r && probes == old(probes) + 1
    {
      r := DetectColabEnvironment(probe);
    }
  }

  /** Once a probe has answered, the flag, the negated flag and the record
      all stay fixed whatever later probes would do. */
  method ProbeOnce(probe1: ImportOutcome, probe2: ImportOutcome, probe3: ImportOutcome)
    returns (colab: Option<bool>, vscode: Option<bool>, js: Option<bool>, info: Option<EnvironmentInfo>,
             ghost probesRun: nat)
    ensures probe1 == OtherFailure <==> colab.None?
    ensures colab.Some? ==> colab.value == (probe1 == Imported)
    ensures colab.Some? ==> vscode == Some(!colab.value) && js == colab
    ensures colab.Some? ==> info == Some(InfoFor(colab.value)) && probesRun == 1
  {
    var d := new EnvironmentDetector();
    colab := d.IsColab(probe1);
    vscode := d.IsVscode(probe2);
    js := d.SupportsJavascript(probe3);
    info := d.GetEnvironmentInfo(probe2);
    probesRun := d.probes;
  }
}
