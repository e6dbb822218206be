/**
 * The call sequences of the context's unit tests, each on a fresh story
 * against caches in which nothing is pending. Earlier runs may have left stories
 * behind in the caches, but only with empty deques: a run followed by the
 * tear-down leaves nothing pending (`FullStoryExecution`,
 * `ItemsCacheThenTearDown`). Handles are the strings the tests resolve them to.
 */
module StoryScenarios {
  import opened Wrappers
  import opened PendingCache
  import opened JBehave

  /** Nothing is pending in either cache: every story's deques are empty. */
  ghost predicate Drained<H>(ctx: JBehaveContext<H>)
    reads ctx
  {
    NothingPending(ctx.stepsCache) && NothingPending(ctx.itemsCache)
  }

  /** A story whose examples table has no rows has no examples. */
  method StoryHasNoExamplesWhenExamplesTableIsEmpty() returns (hasExamples: bool)
    ensures !hasExamples
  {
    var story := new Story<string>();
    var examples := new Examples([], EmptyTable);
    story.SetExamples(examples);
    hasExamples := story.HasExamples();
  }

  /** A story whose examples table has a row has examples. */
  method StoryHasExamplesWhenExamplesTableHasRows(steps: seq<string>, row: Row) returns (hasExamples: bool)
    ensures hasExamples
  {
    var story := new Story<string>();
    var examples := new Examples(steps, ExamplesTable([row]));
    story.SetExamples(examples);
    hasExamples := story.HasExamples();
  }

  /**
   * The opening both tests share: on a fresh story, set the story id, the
   * scenario, a composite step and the step it is composed of.
   */
  method OpenStory(ctx: JBehaveContext<string>) returns (story: Story<string>)
    modifies ctx`stepsCache, ctx`itemsCache
    ensures fresh(story)
    ensures ctx.stepsCache == old(ctx.stepsCache)[story := ["composed step", "composite step"]]
    ensures ctx.itemsCache == old(ctx.itemsCache)[story := ["scenario", "storyId"]]
    ensures story.currentStep == Some("composed step")
    ensures story.currentScenario == Some("scenario")
    ensures story.currentStoryId == Some("storyId")
  {
    ghost var steps0, items0 := ctx.stepsCache, ctx.itemsCache;
    story := new Story<string>();
    assert story !in items0 && story !in steps0;
    story.SetCurrentStoryId(ctx, Some("storyId"));
    assert Mirror([], None, Some("storyId")) == ["storyId"];
    story.SetCurrentScenario(ctx, Some("scenario"));
    assert Mirror(["storyId"], None, Some("scenario")) == ["scenario", "storyId"];
    ReplaceEntry(items0, story, ["storyId"], ["scenario", "storyId"]);
    story.SetCurrentStep(ctx, Some("composite step"));
    assert Mirror([], None, Some("composite step")) == ["composite step"];
    story.SetCurrentStep(ctx, Some("composed step"));
    assert Mirror(["composite step"], Some("composite step"), Some("composed step")) == ["composed step", "composite step"];
    ReplaceEntry(steps0, story, ["composite step"], ["composed step", "composite step"]);
  }

  /**
   * Story id, scenario and two stacked steps opened on one story: the merged
   * view lists the steps first, innermost first, then the scenario and the
   * story, whatever order the caches' keys are visited in.
   */
  method ItemsCache(ctx: JBehaveContext<string>) returns (merged: seq<string>, story: Story<string>)
    requires Drained(ctx)
    modifies ctx`stepsCache, ctx`itemsCache
    ensures merged == ["composed step", "composite step", "scenario", "storyId"]
    ensures fresh(story)
    ensures ctx.stepsCache == old(ctx.stepsCache)[story := ["composed step", "composite step"]]
    ensures ctx.itemsCache == old(ctx.itemsCache)[story := ["scenario", "storyId"]]
    ensures story.currentStep == Some("composed step")
    ensures story.currentScenario == Some("scenario")
    ensures story.currentStoryId == Some("storyId")
  {
    ghost var steps0, items0 := ctx.stepsCache, ctx.itemsCache;
    story := OpenStory(ctx);
    NothingPendingElsewhere(steps0, story, ["composed step", "composite step"], ctx.stepsCache);
    NothingPendingElsewhere(items0, story, ["scenario", "storyId"], ctx.itemsCache);
    ghost var stepOrder, itemOrder;
    merged, stepOrder, itemOrder := ctx.GetItemsCache();
    FlattenSingleSource(ctx.stepsCache, stepOrder, story);
    FlattenSingleSource(ctx.itemsCache, itemOrder, story);
  }

  /**
   * The items-cache test followed by the tear-down JUnit runs after it: the
   * tear-down clears every slot the test set, so the caches are left with
   * nothing pending, as the next test requires.
   */
  method ItemsCacheThenTearDown(ctx: JBehaveContext<string>) returns (merged: seq<string>, story: Story<string>)
    requires Drained(ctx)
    modifies ctx`stepsCache, ctx`itemsCache
    ensures merged == ["composed step", "composite step", "scenario", "storyId"]
    ensures fresh(story)
    ensures story.currentStep.None? && story.currentScenario.None? && story.currentStoryId.None?
    ensures ctx.stepsCache == old(ctx.stepsCache)[story := []]
    ensures ctx.itemsCache == old(ctx.itemsCache)[story := []]
    ensures Drained(ctx)
  {
    ghost var steps0, items0 := ctx.stepsCache, ctx.itemsCache;
    merged, story := ItemsCache(ctx);
    ghost var steps1, items1 := ctx.stepsCache, ctx.itemsCache;
    TearDown(ctx, story);
    assert ClearSteps(["composed step", "composite step"], 2) == [];
    assert Mirror(Mirror(["scenario", "storyId"], Some("scenario"), None), Some("storyId"), None) == [];
    ReplaceEntry(steps0, story, ["composed step", "composite step"], []);
    ReplaceEntry(items0, story, ["scenario", "storyId"], []);
    NothingPendingElsewhere(steps0, story, [], ctx.stepsCache);
    NothingPendingElsewhere(items0, story, [], ctx.itemsCache);
  }

  /**
   * The first half of the full-story test's closing: clear the step twice.
   * The first clear removes the composed step and shows the composite one;
   * the second removes that and leaves the slot empty.
   */
  method CloseSteps(ctx: JBehaveContext<string>, story: Story<string>)
    requires story in ctx.stepsCache && ctx.stepsCache[story] == ["composed step", "composite step"]
    requires story.currentStep == Some("composed step")
    modifies story`currentStep, ctx`stepsCache, ctx`itemsCache
    ensures ctx.stepsCache == old(ctx.stepsCache)[story := []]
    ensures ctx.itemsCache == old(ctx.itemsCache)
    ensures story.currentStep.None?
    ensures story.currentScenario == old(story.currentScenario) && story.currentStoryId == old(story.currentStoryId)
  {
    ghost var steps0 := ctx.stepsCache;
    story.SetCurrentStep(ctx, None);
    assert Mirror(["composed step", "composite step"], Some("composed step"), None) == ["composite step"];
    assert story.currentStep == Some("composite step");
    story.SetCurrentStep(ctx, None);
    assert Mirror(["composite step"], Some("composite step"), None) == [];
    ReplaceEntry(steps0, story, ["composite step"], []);
  }

  /**
   * The second half: clear the scenario, then the story id, each removing
   * its own handle from the story's item deque.
   */
  method CloseItems(ctx: JBehaveContext<string>, story: Story<string>)
    requires story in ctx.itemsCache && ctx.itemsCache[story] == ["scenario", "storyId"]
    requires story.currentScenario == Some("scenario")
    requires story.currentStoryId == Some("storyId")
    modifies story`currentScenario, story`currentStoryId, ctx`stepsCache, ctx`itemsCache
    ensures ctx.itemsCache == old(ctx.itemsCache)[story := []]
    ensures ctx.stepsCache == old(ctx.stepsCache)
    ensures story.currentScenario.None? && story.currentStoryId.None?
    ensures story.currentStep == old(story.currentStep)
  {
    ghost var items0 := ctx.itemsCache;
    story.SetCurrentScenario(ctx, None);
    assert Mirror(["scenario", "storyId"], Some("scenario"), None) == ["storyId"];
    story.SetCurrentStoryId(ctx, None);
    assert Mirror(["storyId"], Some("storyId"), None) == [];
    ReplaceEntry(items0, story, ["storyId"], []);
  }

  /**
   * The same four items opened and then closed, innermost first: nothing is
   * left pending, the step slot is empty, and the only trace in the caches is
   * an empty deque for the story in each.
   */
  method FullStoryExecution(ctx: JBehaveContext<string>) returns (merged: seq<string>, story: Story<string>)
    requires Drained(ctx)
    modifies ctx`stepsCache, ctx`itemsCache
    ensures fresh(story)
    ensures merged == []
    ensures story.currentStep.None? && story.currentScenario.None? && story.currentStoryId.None?
    ensures ctx.stepsCache == old(ctx.stepsCache)[story := []]
    ensures ctx.itemsCache == old(ctx.itemsCache)[story := []]
    ensures Drained(ctx)
  {
    ghost var steps0, items0 := ctx.stepsCache, ctx.itemsCache;
    story := OpenStory(ctx);
    CloseSteps(ctx, story);
    CloseItems(ctx, story);
    ReplaceEntry(steps0, story, ["composed step", "composite step"], []);
    ReplaceEntry(items0, story, ["scenario", "storyId"], []);
    NothingPendingElsewhere(steps0, story, [], ctx.stepsCache);
    NothingPendingElsewhere(items0, story, [], ctx.itemsCache);
    ghost var stepOrder, itemOrder;
    merged, stepOrder, itemOrder := ctx.GetItemsCache();
    FlattenSingleSource(ctx.stepsCache, stepOrder, story);
    FlattenSingleSource(ctx.itemsCache, itemOrder, story);
  }

  /**
   * The step half of the tear-down: clear the step twice. Each clear removes
   * the handle the slot shows and the slot then shows the deque's new front;
   * on a story whose slot is in step with its deque, as every step setter
   * leaves it, the two clears drop the two innermost steps.
   */
  method TearDownSteps<H(==)>(ctx: JBehaveContext<H>, story: Story<H>)
    modifies story`currentStep, ctx`stepsCache, ctx`itemsCache
    ensures var e1 := Mirror(old(EntryOf(ctx.stepsCache, story)), old(story.currentStep), None);
            ctx.stepsCache == old(ctx.stepsCache)[story := Mirror(e1, Peek(e1), None)]
    ensures ctx.itemsCache == old(ctx.itemsCache)
    ensures story.StepInSync(ctx)
    ensures old(story.StepInSync(ctx)) ==>
              ctx.stepsCache == old(ctx.stepsCache)[story := ClearSteps(old(EntryOf(ctx.stepsCache, story)), 2)]
  {
    ghost var steps0 := ctx.stepsCache;
    ghost var e0 := EntryOf(steps0, story);
    ghost var e1 := Mirror(e0, story.currentStep, None);
    if story.StepInSync(ctx) {
      assert ClearSteps(e0, 2) == ClearSteps(e1, 1) == Mirror(e1, Peek(e1), None);
    }
    story.SetCurrentStep(ctx, None);
    story.SetCurrentStep(ctx, None);
    ReplaceEntry(steps0, story, e1, Mirror(e1, Peek(e1), None));
  }

  /**
   * The item half of the tear-down: clear the scenario, then the story id,
   * each removing the handle its slot held.
   */
  method TearDownItems<H(==)>(ctx: JBehaveContext<H>, story: Story<H>)
    modifies story`currentScenario, story`currentStoryId, ctx`stepsCache, ctx`itemsCache
    ensures ctx.itemsCache == old(ctx.itemsCache)[story :=
              Mirror(Mirror(old(EntryOf(ctx.itemsCache, story)), old(story.currentScenario), None), old(story.currentStoryId), None)]
    ensures ctx.stepsCache == old(ctx.stepsCache)
    ensures story.currentScenario.None? && story.currentStoryId.None?
  {
    ghost var items0 := ctx.itemsCache;
    ghost var i1 := Mirror(EntryOf(items0, story), story.currentScenario, None);
    ghost var sid := story.currentStoryId;
    story.SetCurrentScenario(ctx, None);
    story.SetCurrentStoryId(ctx, None);
    ReplaceEntry(items0, story, i1, Mirror(i1, sid, None));
  }

  /**
   * The tests' tear-down, run after each test on the test's own story: two
   * step clears, then the scenario and the story id cleared. The step slot
   * stays in step with its deque, and is clear only once the deque is. On a
   * story whose steps are in step and whose slots are already clear, as the
   * full-story run leaves it, no deque changes contents: the story may only
   * gain empty deques.
   */
  method TearDown<H(==)>(ctx: JBehaveContext<H>, story: Story<H>)
    modifies story`currentStep, story`currentScenario, story`currentStoryId, ctx`stepsCache, ctx`itemsCache
    ensures var e1 := Mirror(old(EntryOf(ctx.stepsCache, story)), old(story.currentStep), None);
            ctx.stepsCache == old(ctx.stepsCache)[story := Mirror(e1, Peek(e1), None)]
    ensures ctx.itemsCache == old(ctx.itemsCache)[story :=
              Mirror(Mirror(old(EntryOf(ctx.itemsCache, story)), old(story.currentScenario), None), old(story.currentStoryId), None)]
    ensures story.currentScenario.None? && story.currentStoryId.None?
    ensures story.StepInSync(ctx)
    ensures old(story.StepInSync(ctx)) ==>
              ctx.stepsCache == old(ctx.stepsCache)[story := ClearSteps(old(EntryOf(ctx.stepsCache, story)), 2)]
    ensures old(story.currentStep.None? && story.StepInSync(ctx)) ==>
              ctx.stepsCache == old(ctx.stepsCache)[story := old(EntryOf(ctx.stepsCache, story))]
    ensures old(story.currentScenario.None? && story.currentStoryId.None?) ==>
              ctx.itemsCache == old(ctx.itemsCache)[story := old(EntryOf(ctx.itemsCache, story))]
  {
    ghost var steps0 := ctx.stepsCache;
    ghost var e0 := EntryOf(steps0, story);
    ghost var clear := story.currentStep.None? && story.StepInSync(ctx);
    TearDownSteps(ctx, story);
    if clear {
      assert e0 == [];
      assert ClearSteps(e0, 2) == [];
    }
    TearDownItems(ctx, story);
  }
}
