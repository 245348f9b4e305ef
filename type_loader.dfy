/**
 * TypeLoader's process-wide static state as one object: the live class map
 * and the resource loader binding, with the operations that change them and
 * the handleResource loop that reads them.
 */
module TypeLoaders {
  import opened Wrappers
  import opened ClassMaps
  import opened ResourceTags
  import opened Resources

  class TypeLoader {
    /** The live class map; it starts as, and is reset to, DefaultClassMap. */
    var classMap: ClassMap
    /** The plugin loader for resource handlers, if one is bound. */
    var resourceLoader: Option<Loader>

    ghost predicate Valid()
      reads this
    {
      UniqueKeys(classMap)
    }

    /** The state at process start: the default map and no loader. */
    constructor ()
      ensures Valid() && classMap == DefaultClassMap && resourceLoader == None
    {
      classMap := DefaultClassMap;
      resourceLoader := None;
      DefaultIsOneToOne();
    }

    /** setMapping: $classMap[$asClassName] = $phpClassName. */
    method SetMapping(asClassName: string, phpClassName: string)
      requires Valid()
      modifies this
      ensures Valid()
      ensures classMap == Put(old(classMap), asClassName, phpClassName)
      ensures resourceLoader == old(resourceLoader)
    {
      classMap := Put(classMap, asClassName, phpClassName);
    }

    /** resetMap: the live map becomes the default map again. */
    method ResetMap()
      modifies this
      ensures Valid() && classMap == DefaultClassMap
      ensures resourceLoader == old(resourceLoader)
    {
      classMap := DefaultClassMap;
      DefaultIsOneToOne();
    }

    method GetResourceLoader() returns (loader: Option<Loader>)
      ensures loader == resourceLoader
    {
      loader := resourceLoader;
    }

    method SetResourceLoader(loader: Loader)
      requires Valid()
      modifies this
      ensures Valid()
      ensures resourceLoader == Some(loader)
      ensures classMap == old(classMap)
    {
      resourceLoader := Some(loader);
    }

    /**
     * handleResource, running the while loop for at most fuel calls of
     * parse(). The ghost outputs record the resources the loop body ran on,
     * the tags it asked the loader for and the handlers it constructed.
     */
    method HandleResource(resource: Val, fuel: nat)
      returns (out: Outcome, ghost chain: seq<Val>, ghost lookups: seq<string>, ghost constructed: seq<string>)
      ensures out == Resources.HandleResource(resourceLoader, resource, fuel).outcome
      ensures Run(out, chain, lookups, constructed) == Resources.HandleResource(resourceLoader, resource, fuel)
    {
      chain, lookups, constructed := [], [], [];
      if resourceLoader.None? {
        out := Threw(LoaderNotSet());
        return;
      }
      var loader := resourceLoader.value;
      var current := resource;
      var remaining: nat := fuel;
      while current.Resource? && remaining > 0
        invariant remaining <= fuel
        invariant Convert(loader, resource, fuel) == After(chain, lookups, constructed, Convert(loader, current, remaining))
        decreases remaining
      {
        var step := RunLoopBody(loader, current);
        if step.Fail? {
          ConvertFails(loader, current, remaining, step.error, step.constructed, chain, lookups, constructed);
          chain, lookups, constructed := chain + [current], lookups + [NormalizeTag(current.resourceType)], constructed + step.constructed;
          out := Threw(Rewrap(step.error, current.resourceType));
          return;
        }
        ConvertSteps(loader, current, remaining, step.value, step.className, chain, lookups, constructed);
        chain, lookups, constructed := chain + [current], lookups + [NormalizeTag(current.resourceType)], constructed + [step.className];
        current, remaining := step.value, remaining - 1;
      }
      ConvertStops(loader, current, remaining, chain, lookups, constructed);
      out := if current.Resource? then Unfinished(current) else Returned(current);
    }
  }

  /**
   * One pass of the body of handleResource's while loop on a resource: ask
   * the loader for a handler, construct it, check that it has parse(), and
   * call it. An exception raised on the way is returned, not yet rewrapped.
   */
  method RunLoopBody(loader: Loader, current: Val) returns (step: Step)
    requires current.Resource?
    ensures step == StepOn(loader, current)
  {
    var found := GetResourceParser(Some(loader), current.resourceType);
    if found.LoaderThrew? {
      return Fail(found.error, []);
    }
    if Missing(found) {
      return Fail(NoHandler(current.resourceType), []);
    }
    var parser := found.handler;
    if parser.constructorThrows.Some? {
      return Fail(parser.constructorThrows.value, [parser.className]);
    }
    if !parser.hasParse {
      return Fail(NoParse(parser.className), [parser.className]);
    }
    var parsed := parser.parse(current);
    if parsed.ParseThrew? {
      return Fail(parsed.error, [parser.className]);
    }
    step := Next(parsed.value, parser.className);
  }
}
