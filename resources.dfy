/**
 * The resource conversion pipeline of TypeLoader: values, the exceptions the
 * pipeline raises and rewraps, resource handlers found through the plugin
 * loader, and the specification of the handleResource loop.
 */
module Resources {
  import opened Wrappers
  import ClassMaps
  import opened ResourceTags

  /** A PHP value: a resource handle with its type tag, or any non-resource value. */
  datatype Val = Resource(resourceType: string, id: nat) | Plain(data: string)

  /** Exception classes: the module's own two, and any class from elsewhere. */
  datatype ExceptionClass =
    | InvalidArgumentException
    | RuntimeException
    | ForeignException(name: string, isModuleException: bool)

  /** A thrown exception: class, message, code and the previous exception it wraps. */
  datatype Exception = Exception(cls: ExceptionClass, message: string, code: int, previous: Option<Exception>)

  /** Whether the exception implements the module's Exception\ExceptionInterface. */
  predicate IsModuleException(e: Exception)
  {
    match e.cls
    case InvalidArgumentException => true
    case RuntimeException => true
    case ForeignException(_, isModule) => isModule
  }

  /** The outcome of a handler's parse(): a new value or a thrown exception. */
  datatype ParseResult = Parsed(value: Val) | ParseThrew(error: Exception)

  /**
   * What `new $resclass` produces: the class name, the exception its
   * constructor throws (if any), whether it has a callable parse(), and what
   * parse() does with a value.
   */
  datatype Handler = Handler(className: string, constructorThrows: Option<Exception>, hasParse: bool, parse: Val -> ParseResult)

  /** The answer of the plugin loader's load() for a normalised tag. */
  datatype LoadResult = Found(handler: Handler) | NotFound | LoaderThrew(error: Exception)

  /** The plugin class locator, abstracted to the map it implements. */
  type Loader = string -> LoadResult

  const LoaderNotSetMessage: string := "Unable to handle resources - resource plugin loader not set"
  const CannotSerializePrefix: string := "Can not serialize resource type: "

  /** The exception handleResource throws when no loader is bound. */
  function LoaderNotSet(): (e: Exception)
    ensures e.cls == InvalidArgumentException && e.message == LoaderNotSetMessage && e.code == 0 && e.previous == None
  {
    Exception(InvalidArgumentException, LoaderNotSetMessage, 0, None)
  }

  /** The RuntimeException thrown when the loader has no handler for a resource type. */
  function NoHandler(resourceType: string): (e: Exception)
    ensures e.cls == RuntimeException && IsModuleException(e)
    ensures e.message == CannotSerializePrefix + resourceType && e.code == 0 && e.previous == None
  {
    Exception(RuntimeException, CannotSerializePrefix + resourceType, 0, None)
  }

  /** The RuntimeException thrown when a handler has no callable parse(). */
  function NoParse(className: string): (e: Exception)
    ensures e.cls == RuntimeException && IsModuleException(e)
    ensures e.message == "Could not call parse() method on class " + className && e.code == 0 && e.previous == None
  {
    Exception(RuntimeException, "Could not call parse() method on class " + className, 0, None)
  }

  /**
   * The two catch clauses of handleResource: an exception of the module's own
   * kind is rethrown as InvalidArgumentException with its message and code;
   * any other becomes a RuntimeException naming the resource type that was
   * being converted, with code 0. Either way the original is kept as previous.
   */
  function Rewrap(e: Exception, resourceType: string): (r: Exception)
    ensures r.previous == Some(e)
    ensures r.cls == InvalidArgumentException <==> IsModuleException(e)
    ensures r.cls == InvalidArgumentException || r.cls == RuntimeException
    ensures IsModuleException(e) ==> r.message == e.message && r.code == e.code
    ensures !IsModuleException(e) ==> r.message == CannotSerializePrefix + resourceType && r.code == 0
  {
    if IsModuleException(e) then Exception(InvalidArgumentException, e.message, e.code, Some(e))
    else Exception(RuntimeException, CannotSerializePrefix + resourceType, 0, Some(e))
  }

  /**
   * getResourceParser: no answer without a loader, otherwise the loader's
   * answer for the normalised type tag.
   */
  function GetResourceParser(loader: Option<Loader>, resourceType: string): (r: LoadResult)
    ensures loader.None? ==> r == NotFound
    ensures loader.Some? ==> r == loader.value(NormalizeTag(resourceType))
  {
    if loader.None? then NotFound else loader.value(NormalizeTag(resourceType))
  }

  /** `if (!$resclass)`: no handler, or one whose class name is falsy. */
  predicate Missing(r: LoadResult)
  {
    r.NotFound? || (r.Found? && !ClassMaps.Truthy(r.handler.className))
  }

  /** How handleResource ends: a value, an exception, or still converting when the fuel ran out. */
  datatype Outcome = Returned(value: Val) | Threw(error: Exception) | Unfinished(current: Val)

  /**
   * A run of handleResource: its outcome, the resources the loop body ran on,
   * the tags it asked the loader for and the handler classes it constructed.
   */
  datatype Run = Run(outcome: Outcome, chain: seq<Val>, lookups: seq<string>, constructed: seq<string>)

  /** One pass of the loop body on a resource: the next value, or the exception it raised. */
  datatype Step = Next(value: Val, className: string) | Fail(error: Exception, constructed: seq<string>)

  /**
   * The body of the while loop: look the handler up, construct it, check
   * that it has parse(), and call it.
   */
  function StepOn(loader: Loader, v: Val): (s: Step)
    requires v.Resource?
    ensures s.Fail? ==> |s.constructed| <= 1
  {
    var found := GetResourceParser(Some(loader), v.resourceType);
    if found.LoaderThrew? then Fail(found.error, [])
    else if Missing(found) then Fail(NoHandler(v.resourceType), [])
    else
      var h := found.handler;
      if h.constructorThrows.Some? then Fail(h.constructorThrows.value, [h.className])
      else if !h.hasParse then Fail(NoParse(h.className), [h.className])
      else match h.parse(v)
        case ParseThrew(e) => Fail(e, [h.className])
        case Parsed(next) => Next(next, h.className)
  }

  /**
   * The loop of handleResource with a loader bound, for at most fuel calls of
   * parse(): while the value is a resource, run the loop body on it; an
   * exception from the body is rewrapped by the catch clauses.
   */
  function Convert(loader: Loader, v: Val, fuel: nat): (run: Run)
    ensures run.outcome.Returned? ==> !run.outcome.value.Resource?
    decreases fuel
  {
    if !v.Resource? then Run(Returned(v), [], [], [])
    else if fuel == 0 then Run(Unfinished(v), [], [], [])
    else match StepOn(loader, v)
      case Fail(e, constructed) =>
        Run(Threw(Rewrap(e, v.resourceType)), [v], [NormalizeTag(v.resourceType)], constructed)
      case Next(next, className) =>
        var rest := Convert(loader, next, fuel - 1);
        Run(rest.outcome, [v] + rest.chain, [NormalizeTag(v.resourceType)] + rest.lookups, [className] + rest.constructed)
  }

  /** The run r preceded by a chain, lookups and constructions already made. */
  function After(chain: seq<Val>, lookups: seq<string>, constructed: seq<string>, r: Run): (run: Run)
  {
    Run(r.outcome, chain + r.chain, lookups + r.lookups, constructed + r.constructed)
  }

  /** A failing pass of the loop body ends the run with the rewrapped exception. */
  lemma ConvertFails(loader: Loader, v: Val, fuel: nat, e: Exception, failed: seq<string>,
                     chain: seq<Val>, lookups: seq<string>, constructed: seq<string>)
    requires v.Resource? && fuel > 0 && StepOn(loader, v) == Fail(e, failed)
    ensures After(chain, lookups, constructed, Convert(loader, v, fuel)) ==
      Run(Threw(Rewrap(e, v.resourceType)), chain + [v], lookups + [NormalizeTag(v.resourceType)], constructed + failed)
  {
  }

  /** The loop stops on a non-resource, which is returned, or when the fuel is gone. */
  lemma ConvertStops(loader: Loader, v: Val, fuel: nat, chain: seq<Val>, lookups: seq<string>, constructed: seq<string>)
    requires !v.Resource? || fuel == 0
    ensures After(chain, lookups, constructed, Convert(loader, v, fuel)) ==
      Run(if v.Resource? then Unfinished(v) else Returned(v), chain, lookups, constructed)
  {
    assert chain + [] == chain && lookups + [] == lookups && constructed + [] == constructed;
  }

  /**
   * A successful pass of the loop body moves its resource, tag and handler
   * from the rest of the run to what has been done.
   */
  lemma ConvertSteps(loader: Loader, v: Val, fuel: nat, next: Val, className: string,
                     chain: seq<Val>, lookups: seq<string>, constructed: seq<string>)
    requires v.Resource? && fuel > 0 && StepOn(loader, v) == Next(next, className)
    ensures After(chain, lookups, constructed, Convert(loader, v, fuel)) ==
      After(chain + [v], lookups + [NormalizeTag(v.resourceType)], constructed + [className], Convert(loader, next, fuel - 1))
  {
    var rest := Convert(loader, next, fuel - 1);
    assert chain + ([v] + rest.chain) == chain + [v] + rest.chain;
    assert lookups + ([NormalizeTag(v.resourceType)] + rest.lookups) == lookups + [NormalizeTag(v.resourceType)] + rest.lookups;
    assert constructed + ([className] + rest.constructed) == constructed + [className] + rest.constructed;
  }

  /**
   * One lookup per resource the loop body ran on, with that resource's
   * normalised tag; the chain starts at the input, and a non-resource input
   * is returned without asking the loader.
   */
  lemma {:induction false} ConvertLooksUpEachResource(loader: Loader, v: Val, fuel: nat)
    ensures !v.Resource? ==> Convert(loader, v, fuel) == Run(Returned(v), [], [], [])
    ensures |Convert(loader, v, fuel).lookups| == |Convert(loader, v, fuel).chain| <= fuel
    ensures forall i :: 0 <= i < |Convert(loader, v, fuel).chain| ==>
      Convert(loader, v, fuel).chain[i].Resource? &&
      Convert(loader, v, fuel).lookups[i] == NormalizeTag(Convert(loader, v, fuel).chain[i].resourceType)
    ensures v.Resource? && fuel > 0 ==> |Convert(loader, v, fuel).chain| > 0 && Convert(loader, v, fuel).chain[0] == v
    decreases fuel
  {
    if v.Resource? && fuel > 0 {
      match StepOn(loader, v)
      case Fail(_, _) =>
      case Next(next, _) =>
        ConvertLooksUpEachResource(loader, next, fuel - 1);
    }
  }

  /**
   * One handler construction per resource of a successful chain, whose final
   * value is not a resource; a failed run may lack only the last construction.
   */
  lemma {:induction false} ConvertConstructsEachHandler(loader: Loader, v: Val, fuel: nat)
    ensures |Convert(loader, v, fuel).chain| - 1 <= |Convert(loader, v, fuel).constructed| <= |Convert(loader, v, fuel).chain|
    ensures Convert(loader, v, fuel).outcome.Returned? ==>
      |Convert(loader, v, fuel).constructed| == |Convert(loader, v, fuel).chain| &&
      !Convert(loader, v, fuel).outcome.value.Resource?
    decreases fuel
  {
    if v.Resource? && fuel > 0 {
      match StepOn(loader, v)
      case Fail(_, _) =>
      case Next(next, _) =>
        ConvertConstructsEachHandler(loader, next, fuel - 1);
    }
  }

  /**
   * Every failure leaves the loop rewrapped by the catch clauses: it wraps the
   * raw exception as previous and names the last resource of the chain.
   */
  lemma {:induction false} ConvertRewrapsFailures(loader: Loader, v: Val, fuel: nat)
    ensures Convert(loader, v, fuel).outcome.Threw? ==>
      |Convert(loader, v, fuel).chain| > 0 &&
      Convert(loader, v, fuel).chain[|Convert(loader, v, fuel).chain| - 1].Resource? &&
      Convert(loader, v, fuel).outcome.error.previous.Some? &&
      Convert(loader, v, fuel).outcome.error ==
        Rewrap(Convert(loader, v, fuel).outcome.error.previous.value,
               Convert(loader, v, fuel).chain[|Convert(loader, v, fuel).chain| - 1].resourceType)
    decreases fuel
  {
    if v.Resource? && fuel > 0 {
      match StepOn(loader, v)
      case Fail(_, _) =>
      case Next(next, _) =>
        ConvertRewrapsFailures(loader, next, fuel - 1);
    }
  }

  /** Only a chain that used up all the fuel on resources is unfinished. */
  lemma {:induction false} ConvertUnfinished(loader: Loader, v: Val, fuel: nat)
    ensures Convert(loader, v, fuel).outcome.Unfinished? ==>
      Convert(loader, v, fuel).outcome.current.Resource? && |Convert(loader, v, fuel).chain| == fuel
    decreases fuel
  {
    if v.Resource? && fuel > 0 {
      match StepOn(loader, v)
      case Fail(_, _) =>
      case Next(next, _) =>
        ConvertUnfinished(loader, next, fuel - 1);
    }
  }

  /** handleResource: the loader check before the loop, then the loop. */
  function HandleResource(loader: Option<Loader>, v: Val, fuel: nat): (run: Run)
  {
    if loader.None? then Run(Threw(LoaderNotSet()), [], [], [])
    else Convert(loader.value, v, fuel)
  }

  /**
   * handleResource without a loader throws the configuration error for every
   * input; with one, a plain value comes back untouched without a lookup, a
   * returned value is never a resource, and every exception is one of the
   * module's two classes.
   */
  lemma HandleResourceOutcomes(loader: Option<Loader>, v: Val, fuel: nat)
    ensures loader.None? ==>
      (HandleResource(loader, v, fuel).outcome == Threw(LoaderNotSet()) && HandleResource(loader, v, fuel).lookups == [])
    ensures loader.Some? && !v.Resource? ==>
      (HandleResource(loader, v, fuel).outcome == Returned(v) && HandleResource(loader, v, fuel).lookups == [])
    ensures HandleResource(loader, v, fuel).outcome.Returned? ==> !HandleResource(loader, v, fuel).outcome.value.Resource?
    ensures HandleResource(loader, v, fuel).outcome.Threw? ==>
      HandleResource(loader, v, fuel).outcome.error.cls == InvalidArgumentException ||
      HandleResource(loader, v, fuel).outcome.error.cls == RuntimeException
  {
    if loader.Some? {
      ConvertConstructsEachHandler(loader.value, v, fuel);
      ConvertRewrapsFailures(loader.value, v, fuel);
    }
  }

  /** Fuel only bounds the observation: a run that finished gives the same result with more fuel. */
  lemma {:induction false} ConvertFuelIrrelevant(loader: Loader, v: Val, fuel: nat, more: nat)
    requires fuel <= more && !Convert(loader, v, fuel).outcome.Unfinished?
    ensures Convert(loader, v, more) == Convert(loader, v, fuel)
    decreases fuel
  {
    if v.Resource? && fuel > 0 {
      match StepOn(loader, v)
      case Fail(_, _) =>
      case Next(next, _) =>
        ConvertFuelIrrelevant(loader, next, fuel - 1, more - 1);
    }
  }

  /**
   * A missing handler raises a RuntimeException of the module, which the
   * first catch clause turns into an InvalidArgumentException with the same
   * message and code.
   */
  lemma MissingHandlerIsInvalidArgument(loader: Loader, v: Val, fuel: nat)
    requires v.Resource? && fuel > 0 && Missing(loader(NormalizeTag(v.resourceType)))
    ensures Convert(loader, v, fuel).outcome ==
      Threw(Exception(InvalidArgumentException, CannotSerializePrefix + v.resourceType, 0, Some(NoHandler(v.resourceType))))
  {
  }

  /** A handler without parse() ends the same way, naming the handler class. */
  lemma MissingParseIsInvalidArgument(loader: Loader, v: Val, fuel: nat, h: Handler)
    requires v.Resource? && fuel > 0 && loader(NormalizeTag(v.resourceType)) == Found(h)
    requires ClassMaps.Truthy(h.className) && h.constructorThrows.None? && !h.hasParse
    ensures Convert(loader, v, fuel).outcome ==
      Threw(Exception(InvalidArgumentException, "Could not call parse() method on class " + h.className, 0, Some(NoParse(h.className))))
  {
  }

  /**
   * An exception from outside the module, thrown by parse(), becomes a
   * RuntimeException naming the type of the resource being parsed.
   */
  lemma ForeignParseErrorIsRuntime(loader: Loader, v: Val, fuel: nat, h: Handler, e: Exception)
    requires v.Resource? && fuel > 0 && loader(NormalizeTag(v.resourceType)) == Found(h)
    requires ClassMaps.Truthy(h.className) && h.constructorThrows.None? && h.hasParse
    requires h.parse(v) == ParseThrew(e) && !IsModuleException(e)
    ensures Convert(loader, v, fuel).outcome ==
      Threw(Exception(RuntimeException, CannotSerializePrefix + v.resourceType, 0, Some(e)))
  {
  }

  /** A loader whose one handler turns resource 1 into resource 2 and that into plain data. */
  function TwoStepLoader(resourceType: string): (loader: Loader)
  {
    tag => Found(Handler("StreamHandler", None, true,
      v => if v == Resource(resourceType, 1) then Parsed(Resource(resourceType, 2)) else Parsed(Plain("data"))))
  }

  /** resource -> resource -> plain: the final value, after two lookups and two constructions. */
  lemma TwoStepChain(resourceType: string, fuel: nat)
    requires fuel >= 2
    ensures Convert(TwoStepLoader(resourceType), Resource(resourceType, 1), fuel) ==
      Run(Returned(Plain("data")), [Resource(resourceType, 1), Resource(resourceType, 2)],
          [NormalizeTag(resourceType), NormalizeTag(resourceType)], ["StreamHandler", "StreamHandler"])
  {
    var loader := TwoStepLoader(resourceType);
    var first, second := Resource(resourceType, 1), Resource(resourceType, 2);
    assert StepOn(loader, first) == Next(second, "StreamHandler");
    assert StepOn(loader, second) == Next(Plain("data"), "StreamHandler");
    assert Convert(loader, second, fuel - 1) ==
      Run(Returned(Plain("data")), [second], [NormalizeTag(resourceType)], ["StreamHandler"]);
  }
}
