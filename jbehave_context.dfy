/**
 * The JBehave execution context: a `Story` per running story holds the
 * handles of the story, scenario and step currently open, and mirrors each
 * change into one of two caches shared by all stories, so that a reporter
 * can later see every item still waiting for its identifier. Item handles
 * are an opaque type `H` compared with `==`; a handle slot holding Java
 * `null` is `None`.
 */
module JBehave {
  import opened Wrappers
  import opened PendingCache

  /** One row of an examples table: column name to value. */
  type Row = map<string, string>

  /** The examples table of a scenario, as its rows in order. */
  datatype ExamplesTable = ExamplesTable(rows: seq<Row>) {

    function RowCount(): nat
    {
      |rows|
    }

    /** `getRow(index)`: the row at `index`; an index outside the table is the table's index failure. */
    function GetRow(index: int): (r: Option<Row>)
      ensures r.Some? <==> 0 <= index < RowCount()
      ensures r.Some? ==> r.value == rows[index]
    {
      if 0 <= index < |rows| then Some(rows[index]) else None
    }
  }

  /** `ExamplesTable.EMPTY`. */
  const EmptyTable := ExamplesTable([])

  /** Story or scenario metadata, passed through without being looked at. */
  class Meta {
  }

  /** The two shared caches: `itemsCache` for stories and scenarios, `stepsCache` for steps. */
  datatype CacheKind = Items | Steps

  /** An examples table, the steps it parametrises, and a cursor on the current row. */
  class Examples {
    const examplesTable: ExamplesTable
    const steps: seq<string>
    var currentExample: int

    /** A new cursor selects no row (-1), so there are no current parameters yet. */
    constructor (steps: seq<string>, examplesTable: ExamplesTable)
      ensures this.steps == steps && this.examplesTable == examplesTable
      ensures currentExample == -1
      ensures GetCurrentExampleParams().None?
    {
      this.examplesTable := examplesTable;
      this.currentExample := -1;
      this.steps := steps;
    }

    /** `getCurrentExampleParams()`: the row under the cursor; a cursor outside the table fails. */
    function GetCurrentExampleParams(): (r: Option<Row>)
      reads this
      ensures r.Some? <==> 0 <= currentExample < |examplesTable.rows|
      ensures r.Some? ==> r.value == examplesTable.rows[currentExample]
    {
      examplesTable.GetRow(currentExample)
    }

    /** `hasStep(step)`: whether `step` is one of the parametrised steps. */
    function HasStep(step: string): (r: bool)
      ensures r <==> exists i :: 0 <= i < |steps| && steps[i] == step
    {
      step in steps
    }

    method SetCurrentExample(currentExample: int)
      modifies this`currentExample
      ensures this.currentExample == currentExample
      ensures 0 <= currentExample < |examplesTable.rows| ==>
                GetCurrentExampleParams() == Some(examplesTable.rows[currentExample])
    {
      this.currentExample := currentExample;
    }
  }

  /** One story's execution context. */
  class Story<H(==)> {
    var currentStoryId: Option<H>
    var currentScenario: Option<H>
    var currentStep: Option<H>
    var currentStepStatus: Option<string>
    var examples: Examples?
    var scenarioMeta: Meta?
    var storyMeta: Meta?
    var parent: Story?<H>

    /** Every field of a new context is empty. */
    ghost predicate IsBlank()
      reads this
    {
      && currentStoryId.None? && currentScenario.None? && currentStep.None?
      && currentStepStatus.None? && examples == null
      && scenarioMeta == null && storyMeta == null && parent == null
    }

    constructor ()
      ensures IsBlank()
    {
      currentStoryId, currentScenario, currentStep := None, None, None;
      currentStepStatus := None;
      examples, scenarioMeta, storyMeta, parent := null, null, null, null;
    }

    /**
     * The step slot shows the front of this context's step deque. Every
     * step setter call re-establishes it, and nothing else touches either.
     */
    ghost predicate StepInSync(ctx: JBehaveContext<H>)
      reads this, ctx
    {
      currentStep == Peek(EntryOf(ctx.stepsCache, this))
    }

    function HasParent(): (r: bool)
      reads this
      ensures r <==> parent != null
    {
      null != parent
    }

    method SetParent(parent: Story?<H>)
      modifies this`parent
      ensures this.parent == parent
      ensures HasParent() == (parent != null)
    {
      this.parent := parent;
    }

    /**
     * `setCurrentStep`: a present step is pushed onto this context's step
     * deque, an absent one removes the slot's current step from it; either
     * way the slot then shows the deque's front.
     */
    method SetCurrentStep(ctx: JBehaveContext<H>, currentStep: Option<H>)
      modifies this`currentStep, ctx`stepsCache, ctx`itemsCache
      ensures ctx.stepsCache
           == old(ctx.stepsCache)[this := Mirror(old(EntryOf(ctx.stepsCache, this)), old(this.currentStep), currentStep)]
      ensures ctx.itemsCache == old(ctx.itemsCache)
      ensures this.currentStep == Peek(ctx.stepsCache[this])
      ensures StepInSync(ctx)
      ensures currentStep.Some? ==> this.currentStep == currentStep
    {
      ghost var before := ctx.stepsCache;
      var cacheEntry := ctx.GetEntryFrom(Steps, this);
      ghost var inserted := cacheEntry;
      if currentStep.Some? {
        cacheEntry := [currentStep.value] + cacheEntry;
      } else if this.currentStep.Some? {
        // removing `null` from a deque that never holds `null` changes nothing
        cacheEntry := RemoveFirst(cacheEntry, this.currentStep.value);
      }
      assert cacheEntry == Mirror(EntryOf(before, this), this.currentStep, currentStep);
      ReplaceEntry(before, this, inserted, cacheEntry);
      ctx.stepsCache := ctx.stepsCache[this := cacheEntry];
      this.currentStep := Peek(cacheEntry);
    }

    /**
     * `setCurrentStoryId`: a present id is pushed onto this context's item
     * deque, an absent one removes the slot's current id from it; the slot
     * then holds the argument itself, so it is empty after a clear whatever
     * remains in the deque.
     */
    method SetCurrentStoryId(ctx: JBehaveContext<H>, currentStoryId: Option<H>)
      modifies this`currentStoryId, ctx`stepsCache, ctx`itemsCache
      ensures ctx.itemsCache
           == old(ctx.itemsCache)[this := Mirror(old(EntryOf(ctx.itemsCache, this)), old(this.currentStoryId), currentStoryId)]
      ensures ctx.stepsCache == old(ctx.stepsCache)
      ensures this.currentStoryId == currentStoryId
    {
      ghost var before := ctx.itemsCache;
      var cacheEntry := ctx.GetEntryFrom(Items, this);
      ghost var inserted := cacheEntry;
      if currentStoryId.Some? {
        cacheEntry := [currentStoryId.value] + cacheEntry;
      } else if this.currentStoryId.Some? {
        cacheEntry := RemoveFirst(cacheEntry, this.currentStoryId.value);
      }
      assert cacheEntry == Mirror(EntryOf(before, this), this.currentStoryId, currentStoryId);
      ReplaceEntry(before, this, inserted, cacheEntry);
      ctx.itemsCache := ctx.itemsCache[this := cacheEntry];
      this.currentStoryId := currentStoryId;
    }

    /** `setCurrentScenario`: as `setCurrentStoryId`, on the scenario slot. */
    method SetCurrentScenario(ctx: JBehaveContext<H>, currentScenario: Option<H>)
      modifies this`currentScenario, ctx`stepsCache, ctx`itemsCache
      ensures ctx.itemsCache
           == old(ctx.itemsCache)[this := Mirror(old(EntryOf(ctx.itemsCache, this)), old(this.currentScenario), currentScenario)]
      ensures ctx.stepsCache == old(ctx.stepsCache)
      ensures this.currentScenario == currentScenario
    {
      ghost var before := ctx.itemsCache;
      var cacheEntry := ctx.GetEntryFrom(Items, this);
      ghost var inserted := cacheEntry;
      if currentScenario.Some? {
        cacheEntry := [currentScenario.value] + cacheEntry;
      } else if this.currentScenario.Some? {
        cacheEntry := RemoveFirst(cacheEntry, this.currentScenario.value);
      }
      assert cacheEntry == Mirror(EntryOf(before, this), this.currentScenario, currentScenario);
      ReplaceEntry(before, this, inserted, cacheEntry);
      ctx.itemsCache := ctx.itemsCache[this := cacheEntry];
      this.currentScenario := currentScenario;
    }

    method SetCurrentStepStatus(currentStepStatus: Option<string>)
      modifies this`currentStepStatus
      ensures this.currentStepStatus == currentStepStatus
    {
      this.currentStepStatus := currentStepStatus;
    }

    method SetExamples(examples: Examples?)
      modifies this`examples
      ensures this.examples == examples
    {
      this.examples := examples;
    }

    /** `hasExamples()`: an examples table is set and it has at least one row. */
    function HasExamples(): (r: bool)
      reads this
      ensures r <==> examples != null && examples.examplesTable.rows != []
    {
      null != examples && examples.examplesTable.RowCount() > 0
    }

    method SetScenarioMeta(scenarioMeta: Meta?)
      modifies this`scenarioMeta
      ensures this.scenarioMeta == scenarioMeta
    {
      this.scenarioMeta := scenarioMeta;
    }

    method SetStoryMeta(storyMeta: Meta?)
      modifies this`storyMeta
      ensures this.storyMeta == storyMeta
    {
      this.storyMeta := storyMeta;
    }
  }

  /**
   * The state `JBehaveContext` keeps in static fields: the two shared caches,
   * keyed by story object, and the story bound as current (one binding; the
   * per-thread registry is not modelled).
   */
  class JBehaveContext<H(==)> {
    var itemsCache: map<Story<H>, seq<H>>
    var stepsCache: map<Story<H>, seq<H>>
    var bound: bool
    var currentStory: Story?<H>

    constructor ()
      ensures itemsCache == map[] && stepsCache == map[]
      ensures !bound && currentStory == null
    {
      itemsCache, stepsCache := map[], map[];
      bound, currentStory := false, null;
    }

    function Cache(kind: CacheKind): map<Story<H>, seq<H>>
      reads this
    {
      match kind
      case Items => itemsCache
      case Steps => stepsCache
    }

    /** `getCurrentStory()`: the bound story; the first call binds a new, blank one. */
    method GetCurrentStory() returns (story: Story?<H>)
      modifies this`bound, this`currentStory
      ensures old(bound) ==> story == old(currentStory)
      ensures !old(bound) ==> story != null && fresh(story) && story.IsBlank()
      ensures bound && currentStory == story
    {
      if !bound {
        currentStory := new Story();
        bound := true;
      }
      story := currentStory;
    }

    /** `setCurrentStory(story)`: binds `story` (possibly `null`) as the current one. */
    method SetCurrentStory(story: Story?<H>)
      modifies this`bound, this`currentStory
      ensures bound && currentStory == story
    {
      currentStory := story;
      bound := true;
    }

    /**
     * `getEntryFrom(cache, story)`: the story's deque in that cache; a story
     * without one gets an empty deque inserted into the cache first.
     */
    method GetEntryFrom(kind: CacheKind, story: Story<H>) returns (entry: seq<H>)
      modifies this`itemsCache, this`stepsCache
      ensures entry == EntryOf(old(Cache(kind)), story)
      ensures story in Cache(kind)
      ensures Cache(kind) == old(Cache(kind))[story := entry]
      ensures kind.Items? ==> stepsCache == old(stepsCache)
      ensures kind.Steps? ==> itemsCache == old(itemsCache)
    {
      if kind.Items? {
        if story !in itemsCache {
          itemsCache := itemsCache[story := []];
        }
        entry := itemsCache[story];
      } else {
        if story !in stepsCache {
          stepsCache := stepsCache[story := []];
        }
        entry := stepsCache[story];
      }
    }

    /**
     * `getItemsCache()`: every step deque, then every item deque, each front
     * to back; contexts follow one another in the caches' unspecified order,
     * which this run reports as `stepOrder` and `itemOrder`.
     */
    method GetItemsCache() returns (merged: seq<H>, ghost stepOrder: seq<Story<H>>, ghost itemOrder: seq<Story<H>>)
      ensures IsEnumeration(stepOrder, stepsCache.Keys) && IsEnumeration(itemOrder, itemsCache.Keys)
      ensures merged == Flatten(stepsCache, stepOrder) + Flatten(itemsCache, itemOrder)
      ensures multiset(merged) == Pending(stepsCache) + Pending(itemsCache)
      ensures |merged| == |Pending(stepsCache)| + |Pending(itemsCache)|
    {
      var steps, items;
      steps, stepOrder := MergeMapValues(stepsCache);
      items, itemOrder := MergeMapValues(itemsCache);
      merged := steps + items;
    }
  }
}
