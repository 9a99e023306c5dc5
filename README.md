# Widget rendering core of bdWidgetFramework, in Dafny

This project models the core of the XenForo add-on *[bd] Widget Framework*. That core is made of four classes:

- **the abstract widget renderer.** It resolves a renderer's configuration. It decides whether a widget may be cached and under which cache id, and whether a cached copy is still fresh. It tests a widget's conditional and normalises option input. It picks a widget's title and builds ajax-load parameters. It provides the forum-id helpers that renderers use, and runs the render pipeline: gates, cache read, lock, regeneration, cache write, lock release, and replay of container data and required externals.
- **the group renderer.** A group is a widget whose children are widgets. It picks a layout, collapses a random group to one child, defers later tabs to ajax loads, keeps the children that produced html, and computes the wrapper's parameters.
- **the widget data writer.** It decodes the stored options, and reads, sets, unsets or merges them. It stamps the add-on version into them before a save, and decides the template and global-cache side effects of a save.
- **the "Profile Posts" renderer.** It declares its configuration and title, and selects the recent profile posts to show.

Host code is passed in as parameters or as function-valued fields, and none of it is modelled:

- XenForo's visitor, options and config; the cache model's storage; the template system;
- the conditional parser;
- `unserialize`; the child renderers; `renderWidget`;
- the profile-post model.

Where the source changes state, the model does too:

- the cache store, the renderer's configuration memo, the page accumulators, a group's children and the data writer's options are class fields;
- the methods that update them are proved against specification functions: `Expected` for a render, `Walk` for a group, `SetOption` for an option write, `RecentPosts` for the post list.

Files and modules:

- `wrappers.dfy` (`Wrappers`): `Option`.
- `php_strings.dfy` (`PhpStrings`): `trim`, `implode`, `%d` formatting, `intval` and `is_numeric` on strings. `trim` strips its own character set; `intval` and `is_numeric` skip C's `isspace` set.
- `php_values.dfy` (`PhpValues`): PHP values and ordered arrays, `empty`, `isset`, assignment, `unset` and XenForo's `mapMerge`.
- `renderer_config.dfy` (`RendererConfig`): declared and resolved configurations.
- `widget_renderer.dfy` (`WidgetRenderer`): the renderer's decisions.
- `forum_ids.dfy` (`ForumIds`): the forum-id helpers.
- `cache_store.dfy` (`CacheStore`): the cache model as seen by the renderer, with a ghost log of its calls.
- `render_pipeline.dfy` (`RenderPipeline`): `render` and `getConfiguration`.
- `widget_group.dfy` (`WidgetGroup`): the group renderer.
- `widget_writer.dfy` (`WidgetWriter`): the data writer.
- `profile_posts.dfy` (`ProfilePosts`): the profile posts renderer.

## Model

| member | source | states |
|---|---|---|
| RendererConfig.InjectedOptions | library/WidgetFramework/WidgetRenderer.php:403-413 | every schema gets `expression` (STRING), `conditional` (ARRAY_SIMPLE) and `deactivate_for_mobile` (UINT); it gets `cache_seconds` (STRING) exactly when caching is on |
| RendererConfig.Resolve | library/WidgetFramework/WidgetRenderer.php:384-417 | each resolved key is the declared value, or else the default: class name, not hidden, no caching, 0 seconds, wrapped, no ajax loading; the schema keys are the declared ones plus the injected ones; injected keys override declared ones, and other declared keys keep their type |
| RendererConfig.GroupConfiguration | library/WidgetFramework/WidgetGroup.php:5-14 | the group's schema is exactly `{layout: STRING}`; every other key is the inherited one |
| RenderPipeline.Renderer.GetConfiguration | library/WidgetFramework/WidgetRenderer.php:384-417 | the first call resolves and memoises the configuration, and later calls return the memo; a group renderer gets the group schema while the memo keeps the resolved one |
| WidgetRenderer.UseCache | library/WidgetFramework/WidgetRenderer.php:439-482 | caching is off in each of these cases: debug mode, the layout editor, the cache store `'0'`, `cache_seconds === '0'`, an ajax load, a renderer without `useCache`, an admin without admin caching, or a per-user cache for a combination that is not group-only while all-combination caching is off; caching is on when none of them holds |
| WidgetRenderer.RequireLock | library/WidgetFramework/WidgetRenderer.php:500-503 | a lock is required exactly when caching is used |
| WidgetRenderer.EffectiveTtl | library/WidgetFramework/WidgetRenderer.php:907-911 | an empty `cache_seconds` falls back to the configured `cacheSeconds`; a non-empty integer is used as it is, and a non-empty string gives its `intval` |
| PhpStrings.IntValReadsLeadingNumber | library/WidgetFramework/WidgetRenderer.php:910 | `intval` of a string reads 0 when no digit or sign follows the leading whitespace, and is negative only after a minus sign |
| PhpStrings.IntValStopsAtExponent | library/WidgetFramework/WidgetRenderer.php:910 | `"1e3"` is numeric, and `intval` reads it as 1: the exponent is not applied |
| WidgetRenderer.IsCacheUsable | library/WidgetFramework/WidgetRenderer.php:900-923 | never usable without `useCache`; always usable with a negative TTL; otherwise usable iff the age is at most the TTL, where a non-empty `cache_seconds` option overrides the configured TTL |
| WidgetRenderer.FreshnessBoundary | library/WidgetFramework/WidgetRenderer.php:913-922 | an entry exactly TTL seconds old is still usable, and one second older is not |
| WidgetRenderer.DistinctUserSegmentsGiveDistinctCacheIds | library/WidgetFramework/WidgetRenderer.php:616-652 | with per-user caching, two permission combinations never share a cache id |
| WidgetRenderer.DistinctStylesGiveDistinctCacheIds | library/WidgetFramework/WidgetRenderer.php:625-629 | two visitor styles that both differ from the default never share a cache id |
| WidgetRenderer.MobileMarkerDistinguishesCacheIds | library/WidgetFramework/WidgetRenderer.php:644-646 | a mobile visitor's cache id differs from the same visitor's id off mobile |
| WidgetRenderer.JoinDistinguishesPart | library/WidgetFramework/WidgetRenderer.php:652 | joining parts with `_` keeps two cache ids apart when exactly one part differs |
| WidgetRenderer.DistinctLanguagesGiveDistinctCacheIds | library/WidgetFramework/WidgetRenderer.php:631-635 | two visitor languages that both differ from the default never share a cache id |
| WidgetRenderer.DistinctTimezonesGiveDistinctCacheIds | library/WidgetFramework/WidgetRenderer.php:637-642 | two time zones that are both non-empty and not the guest zone never share a cache id |
| WidgetRenderer.SuffixEntersJoined | library/WidgetFramework/WidgetRenderer.php:648-652 | the suffix enters the id only as its parts joined with `_`, so `["a_b"]` and `["a", "b"]` give the same id |
| WidgetRenderer.CacheId | library/WidgetFramework/WidgetRenderer.php:609-653 | the id starts with the position code, and is the position code alone when no optional part applies |
| WidgetRenderer.ExecuteExpression | library/WidgetFramework/WidgetRenderer.php:565-583 | an expression that is empty after trimming passes; any other is decided by the evaluator |
| WidgetRenderer.TestConditional | library/WidgetFramework/WidgetRenderer.php:585-607 | an ajax load passes. A non-empty conditional is decided by the tester when it has both `raw` and `parsed`, and passes otherwise. Without a conditional, the legacy expression decides, and with neither, the widget passes |
| WidgetRenderer.ConditionalTakesPrecedence | library/WidgetFramework/WidgetRenderer.php:593-604 | once a conditional is set, the legacy expression has no influence |
| WidgetRenderer.ValidateOptionValue | library/WidgetFramework/WidgetRenderer.php:77-102 | a non-numeric `cache_seconds` becomes `''`, and one below 0 becomes 0, under PHP's own comparison: a string is compared as its integer or double reading, so a magnitude that rounds to 0 (`"-1e-400"`) is not below 0 and is kept; a `conditional` becomes `{raw, parsed}` or `[]`; any other option is kept |
| WidgetRenderer.ValidatedCacheSecondsIsNonNegative | library/WidgetFramework/WidgetRenderer.php:79-84 | a validated `cache_seconds` is `''` or a number that is not below 0 as PHP compares it |
| WidgetRenderer.ValidateOptionValueIdempotent | library/WidgetFramework/WidgetRenderer.php:77-102 | validating a validated value changes nothing: a normalised `cache_seconds` or `conditional` is its own normal form |
| WidgetRenderer.NegativeCacheSecondsFallsBackToConfiguredTtl | library/WidgetFramework/WidgetRenderer.php:77-102 | a `cache_seconds` entered in the form that PHP finds below 0 is stored as 0, which counts as empty, so the configured TTL applies |
| WidgetRenderer.UnderflowingCacheSecondsNeverExpires | library/WidgetFramework/WidgetRenderer.php:77-102 | a `cache_seconds` of `"-1e-400"` is kept by validation, since it underflows to -0.0; `intval` reads it as -1, so a cached copy is usable at any age |
| PhpStrings.UnderflowIsNotNegative | library/WidgetFramework/WidgetRenderer.php:80-84 | `"-1e-400"` is numeric and not below 0, and `intval` reads it as -1 |
| PhpStrings.SmallNegativeIsNegative | library/WidgetFramework/WidgetRenderer.php:80-84 | `"-1e-3"` is numeric and below 0: a magnitude above half the least subnormal double stays negative |
| WidgetRenderer.ParseOptionsInput | library/WidgetFramework/WidgetRenderer.php:521-540 | every schema key gets its validated input and other keys are untouched; a non-empty conditional removes a non-empty legacy expression; the keys stay distinct |
| WidgetRenderer.MatchPhraseTitle | library/WidgetFramework/WidgetRenderer.php:866-868 | a match is exactly `{xen:phrase NAME}` with a case-insensitive prefix and a non-empty NAME without `}`, optionally followed by one newline |
| WidgetRenderer.ExtraPrepareTitle | library/WidgetFramework/WidgetRenderer.php:864-898 | an empty title gives the renderer name; a phrase title gives that phrase; a titled widget saved with an add-on version and a positive id gives its own title phrase; any other title is shown as it is |
| WidgetRenderer.AjaxLoadParams | library/WidgetFramework/WidgetRenderer.php:829-847 | a widget's own array of ajax parameters is used as it is; otherwise the parameters carry only the hook flag |
| WidgetRenderer.AjaxLoadParamsIgnoreParentGroup | library/WidgetFramework/WidgetRenderer.php:829-847 | the ajax parameters do not depend on the group the widget sits in |
| ForumIds.DetectSpecialForums | library/WidgetFramework/WidgetRenderer.php:181-198 | true iff the option is an array holding one of the four special forum values |
| ForumIds.TemplateNode | library/WidgetFramework/WidgetRenderer.php:264-272 | the first of forum, category, page and widget page with a non-empty node id; none iff none has one |
| ForumIds.ForumIdForCache | library/WidgetFramework/WidgetRenderer.php:211-236 | a node id (never 0) iff the option is non-empty and a template node exists; that node's id |
| ForumIds.ChildForumIdsAreNodeIds | library/WidgetFramework/WidgetRenderer.php:330-338 | child collection yields only ids of the given nodes, each a descendant of the parent within the depth bound |
| ForumIds.DescendantsAreCollected | library/WidgetFramework/WidgetRenderer.php:330-338 | every descendant of the parent within the depth bound is collected |
| ForumIds.ChildForumIdsAreDescendants | library/WidgetFramework/WidgetRenderer.php:330-338 | the collected ids are exactly the descendants of the parent within the depth bound |
| ForumIds.ChildForumIdsClosed | library/WidgetFramework/WidgetRenderer.php:330-338 | every child of the parent, and every descendant of such a child within the depth bound, is collected |
| ForumIds.MergeChildForumIds | library/WidgetFramework/WidgetRenderer.php:330-338 | the recursive scan appends exactly the depth-first list of descendants to the accumulator |
| ForumIds.Sort | library/WidgetFramework/WidgetRenderer.php:317 | `sort`: the result is ascending and a permutation of the input |
| ForumIds.Unique | library/WidgetFramework/WidgetRenderer.php:313 | `array_unique`: no duplicates, the same members |
| ForumIds.PlainIds | library/WidgetFramework/WidgetRenderer.php:257-309 | the ids left after removing the special values are exactly the plain forum ids of the option |
| ForumIds.AppendSpecialIds | library/WidgetFramework/WidgetRenderer.php:276-307 | one special value appends its contribution: the node, its parent, or either of them followed by its descendants |
| ForumIds.GetForumIdsFromOption | library/WidgetFramework/WidgetRenderer.php:252-320 | the loop computes `ForumIdsFromOption`: all viewable nodes for an empty option; otherwise the plain ids plus the special contributions, deduplicated only when something special was added, then sorted |
| ForumIds.ForumIdsAreSorted | library/WidgetFramework/WidgetRenderer.php:317 | the returned ids are always ascending |
| ForumIds.PlainOptionIsSortedAsGiven | library/WidgetFramework/WidgetRenderer.php:257-317 | an option without special values returns its ids sorted, duplicates included |
| ForumIds.SpecialContributionDeduplicates | library/WidgetFramework/WidgetRenderer.php:311-314 | when a special value contributed ids, the result has no duplicates |
| ForumIds.SpecialAddsTemplateNode | library/WidgetFramework/WidgetRenderer.php:276-307 | a special value adds the template node's id (current) or its parent's id (parent) |
| ForumIds.ChildPlaceholderAddsDescendants | library/WidgetFramework/WidgetRenderer.php:276-307 | `current_forum_and_children` and `parent_forum_and_children` add every viewable descendant of the template node or of its parent |
| ForumIds.SpecialIdsMembers | library/WidgetFramework/WidgetRenderer.php:276-307 | a special value adds exactly its base id (the node's or its parent's) and, for the `_and_children` values, the descendants of that base |
| ForumIds.AllSpecialIdsMembers | library/WidgetFramework/WidgetRenderer.php:274-309 | the special values of the option add exactly what one of them adds |
| ForumIds.ForumIdsFromOptionMembers | library/WidgetFramework/WidgetRenderer.php:252-320 | an id is returned iff it is a viewable node (empty option), or a plain id of the option or part of a special value's contribution (non-empty option) |
| ForumIds.SpecialIdsCollected | library/WidgetFramework/WidgetRenderer.php:274-309 | any id contributed by any special value of the option is collected |
| ForumIds.PlainIdsSurvive | library/WidgetFramework/WidgetRenderer.php:257-317 | every plain forum id of a non-empty option is in the result |
| ForumIds.NodeLabel | library/WidgetFramework/WidgetRenderer.php:167 | a node's label is two dashes per depth level, a space, then its title |
| ForumIds.NodeChoicesSound | library/WidgetFramework/WidgetRenderer.php:155-170 | every node choice comes from a listed node (not a category, link forum, page or widget page), and it is selected iff its id was selected |
| ForumIds.NodeChoicesComplete | library/WidgetFramework/WidgetRenderer.php:155-170 | every listed node has its choice |
| ForumIds.SpecialChoices | library/WidgetFramework/WidgetRenderer.php:136-153 | the four special choices come in order, each with its phrase, and each is selected iff its value was selected |
| ForumIds.PrepareForumsOptionSource | library/WidgetFramework/WidgetRenderer.php:129-173 | the special choices come first when requested, then the node choices in node order |
| CacheStore.Store.GetCache | library/WidgetFramework/WidgetRenderer.php:724 | a read returns the stored entry or nothing, changes no entry and logs the read |
| CacheStore.Store.AcquireLock | library/WidgetFramework/WidgetRenderer.php:729-743 | a lock is granted with a fresh token iff the key is free; otherwise the result is `false` and the locks are unchanged |
| CacheStore.Store.SetCache | library/WidgetFramework/WidgetRenderer.php:798-800 | the entry under the key becomes the html, the time and the extra data |
| CacheStore.Store.ReleaseLock | library/WidgetFramework/WidgetRenderer.php:804 | a held lock with a matching token is freed; `null` and `false` change nothing |
| RenderPipeline.RestoreFromCache | library/WidgetFramework/WidgetRenderer.php:655-674 | an entry with empty html restores nothing; otherwise the html is the entry marked with its age, and its non-empty container data and externals replace the current ones |
| RenderPipeline.Gate | library/WidgetFramework/WidgetRenderer.php:685-712 | a failed conditional stops with the editor phrase, or `''` outside the editor; a raised one stops with its message in debug or editor mode and `''` otherwise; the mobile switch stops with `''`; rendering continues iff the widget passes and the mobile switch does not apply |
| RenderPipeline.GateOf | library/WidgetFramework/WidgetRenderer.php:685-712 | the gate statements compute `Gate` |
| RenderPipeline.RenderKey | library/WidgetFramework/WidgetRenderer.php:715-722 | a cache key exists iff no gate fired and caching is used; it is the widget id with the cache id |
| RenderPipeline.LookUpCache | library/WidgetFramework/WidgetRenderer.php:715-745 | reads the key, then serves a fresh entry or tries the lock, falling back on a stale copy when the lock is refused; the lock it reports and the calls it makes follow `Decide` |
| RenderPipeline.Settle | library/WidgetFramework/WidgetRenderer.php:747-802 | with no html yet, a refused lock gives `''`; otherwise the widget is regenerated and, under a key, written with its lock id |
| RenderPipeline.Regenerate | library/WidgetFramework/WidgetRenderer.php:757-787 | the html is trimmed. With a render template, the accumulators are saved, cleared and restored, and the template's additions are captured when it renders before the restore. Otherwise they go straight to the page |
| RenderPipeline.Host.Replay | library/WidgetFramework/WidgetRenderer.php:807-818 | non-empty container data is merged, and every requirement of every group is registered in order |
| RenderPipeline.FlattenMembers | library/WidgetFramework/WidgetRenderer.php:813-817 | the registered requirements are exactly those of the replayed groups |
| RenderPipeline.DecideRoutes | library/WidgetFramework/WidgetRenderer.php:715-757 | gated iff a gate fired; served without a lock iff the entry is usable and has html; served stale only with html; gives up iff caching, the lock is held elsewhere and there is no html to fall back on; a lock is tried only for a stale entry or a miss |
| RenderPipeline.ExpectedShape | library/WidgetFramework/WidgetRenderer.php:676-821 | gated iff the conditional fails or the mobile switch applies; a key iff not gated and caching; a served entry is the one under the key, marked with its age, with its extra data; giving up yields `''`; a regeneration yields the trimmed html; a lock is held only for a granted regeneration, with the token on a free key |
| RenderPipeline.Host.RegisterAll | library/WidgetFramework/WidgetRenderer.php:813-817 | every group's requirements are registered, group by group |
| RenderPipeline.Host.RegisterGroup | library/WidgetFramework/WidgetRenderer.php:814-816 | one group's requirements are registered in order |
| RenderPipeline.RegeneratedCopyIsServedLater | library/WidgetFramework/WidgetRenderer.php:724-800 | after a regeneration wrote non-empty html under a key, a later render in the same context within the TTL is served that html with its age, takes no lock, and replays the captured container data and externals |
| RenderPipeline.Render | library/WidgetFramework/WidgetRenderer.php:676-821 | the html, the store calls, the cache write and the page accumulators are those of `Expected` for the store found; the lock set ends as it began |
| RenderPipeline.Produce | library/WidgetFramework/WidgetRenderer.php:685-802 | everything before the release follows `Expected`: the html, captured data and lock id, the read, lock and write calls, the cache write and the direct template work. The lock set gains only the lock taken, on a key that was free |
| RenderPipeline.ProduceMatchesPlan | library/WidgetFramework/WidgetRenderer.php:715-802 | whatever the look-up found and however the render settled, the key, route, lock, html and captured data are those of the plan for the store found |
| RenderPipeline.GatedRenderTouchesNoCache | library/WidgetFramework/WidgetRenderer.php:685-805 | a gated render makes no read, no lock and no write, and releases `null` |
| RenderPipeline.PlanWhenCaching | library/WidgetFramework/WidgetRenderer.php:715-745 | with caching on and no gate, the plan uses the widget's own key and decides on that key's entry and lock alone |
| RenderPipeline.FreshHitTakesNoLock | library/WidgetFramework/WidgetRenderer.php:725-728 | a fresh entry with html is served with its age after one read, with no lock taken and its stored extra data replayed |
| RenderPipeline.ServedAfterWrite | library/WidgetFramework/WidgetRenderer.php:724-728 | an entry written under the render's key is served, with its age and extra data, by a later render in the same context while it stays usable; the clock takes no part in the key |
| RenderPipeline.StaleHitFallsBackWhenLocked | library/WidgetFramework/WidgetRenderer.php:729-754 | a stale entry whose lock is refused is served with its extra data when it has html; when it has none, the render gives up with `''` |
| RenderPipeline.MissWhenLockedGivesUp | library/WidgetFramework/WidgetRenderer.php:738-754 | a miss whose lock is refused yields `''` and writes nothing |
| RenderPipeline.GrantedLockRegenerates | library/WidgetFramework/WidgetRenderer.php:729-805 | with the lock granted, the calls are read, lock, write under that lock, and release of that lock |
| RenderPipeline.FreshEmptyEntryRegeneratesWithoutLock | library/WidgetFramework/WidgetRenderer.php:725-805 | a fresh entry with empty html is regenerated and written with a `null` lock id |
| RenderPipeline.ReleaseIsLastAndOnly | library/WidgetFramework/WidgetRenderer.php:804 | every render releases exactly once, as its last store call |
| RenderPipeline.WriteIffRegeneratedWithKey | library/WidgetFramework/WidgetRenderer.php:789-802 | the cache is written iff the widget was regenerated under a key, with the lock id that is later released |
| RenderPipeline.OutcomeDependsOnlyOnOwnKey | library/WidgetFramework/WidgetRenderer.php:715-745 | the outcome depends on the store only through the widget's own entry and whether its key is locked |
| WidgetGroup.LayoutOf | library/WidgetFramework/WidgetGroup.php:43-52 | the layout is columns, random or tabs exactly when the option holds that string, and rows otherwise |
| WidgetGroup.Selected | library/WidgetFramework/WidgetGroup.php:41-59 | outside the editor a random group visits only the picked position; otherwise every position is visited in order |
| WidgetGroup.Group.Prepare | library/WidgetFramework/WidgetGroup.php:16-28 | the children with a renderer are prepared, in order; an empty group prepares nothing |
| WidgetGroup.PreparedMembers | library/WidgetFramework/WidgetGroup.php:22-27 | a child is prepared iff it has a renderer |
| WidgetGroup.Group.Render | library/WidgetFramework/WidgetGroup.php:30-90 | an empty group yields `''` and changes nothing; otherwise the children become those of `Walk` over the selected positions, and the kept ids are wrapped |
| WidgetGroup.Group.VisitAll | library/WidgetFramework/WidgetGroup.php:62-89 | visiting the selected positions in order leaves the children and kept ids of `Walk` |
| WidgetGroup.Group.VisitChild | library/WidgetFramework/WidgetGroup.php:66-82 | one visit replaces exactly the visited child, with its ajax link when deferred or its rendered html otherwise |
| WidgetGroup.WalkVisits | library/WidgetFramework/WidgetGroup.php:62-82 | each visited child ends up as its visit made it, given the number of children kept before it |
| WidgetGroup.WalkLeavesUnvisited | library/WidgetFramework/WidgetGroup.php:54-65 | a child not visited keeps its runtime html and ajax URL |
| WidgetGroup.WalkKeepsInOrder | library/WidgetFramework/WidgetGroup.php:84-88 | the kept ids are those of the visited children that are kept, in visiting order |
| WidgetGroup.KeptIdsMembers | library/WidgetFramework/WidgetGroup.php:84-88 | a child is kept iff its html is not empty or the editor is on |
| WidgetGroup.WalkDefersExactly | library/WidgetFramework/WidgetGroup.php:62-82 | a child is deferred iff the editor is off, a child was kept before it, the layout is tabs, and its renderer exists and can load by ajax. A deferred child's html is its ajax link, built from the group's own parameters. Any other child is rendered with the group id added |
| WidgetGroup.FirstKeptIsInline | library/WidgetFramework/WidgetGroup.php:71-72 | a child visited before any child is kept is rendered inline |
| WidgetGroup.OnlyTabsDefer | library/WidgetFramework/WidgetGroup.php:71-73 | outside the tabs layout, or in the editor, no child is deferred |
| WidgetGroup.RandomRendersOnlyThePick | library/WidgetFramework/WidgetGroup.php:54-59 | outside the editor a random group visits just the picked child, leaves the others as they were, and keeps at most that child |
| WidgetGroup.WidgetPageMovesIntoSaveParams | library/WidgetFramework/WidgetGroup.php:122-133 | the editor saves the group id. When the group has a widget page and the conditional names one, it also saves the widget page id and drops that name from the conditional; otherwise the conditional is unchanged |
| WidgetGroup.Wrap | library/WidgetFramework/WidgetGroup.php:113-160 | the editor wrapper with save and conditional parameters in editor mode, the plain wrapper without them otherwise; the group id is saved; the class section, group id and kept ids are passed on |
| WidgetGroup.ClassSectionShape | library/WidgetFramework/WidgetGroup.php:137-151 | a hook gets the sidebar classes; a bordered top-level group appends ` section sectionMain` (hook) or ` section`; the result is empty iff neither applies |
| WidgetWriter.Decoded | library/WidgetFramework/DataWriter/Widget.php:17-33 | the stored options are an array as they are, a string that decodes to an array, or else empty |
| WidgetWriter.SetWidgetOptionReadsBack | library/WidgetFramework/DataWriter/Widget.php:35-59 | after a single-key write, `getWidgetOption` on the written options reads the value written, or the default after an unset, and every other key reads as before |
| WidgetWriter.MergedOptionsReadBack | library/WidgetFramework/DataWriter/Widget.php:35-59 | after an array merge, a merged key reads the merged value, or the recursive merge of two arrays; a key not in the array reads as before |
| WidgetWriter.OptionOr | library/WidgetFramework/DataWriter/Widget.php:35-44 | a set option (present and not null) gives its value, and any other gives the default |
| WidgetWriter.Writer.WidgetOption | library/WidgetFramework/DataWriter/Widget.php:35-44 | reading an option from the writer's current options returns its value when set, else the default |
| WidgetWriter.SetOption | library/WidgetFramework/DataWriter/Widget.php:46-59 | an array key is merged in; a non-null value sets the key; null unsets a key that is set and leaves everything else as it was; other keys are unchanged |
| WidgetWriter.Writer.SetWidgetOption | library/WidgetFramework/DataWriter/Widget.php:46-59 | the options field becomes the array `SetOption` yields from the decoded options |
| WidgetWriter.SetThenGet | library/WidgetFramework/DataWriter/Widget.php:35-59 | a set value reads back; an unset key reads back the default |
| WidgetWriter.SetOptionIdempotent | library/WidgetFramework/DataWriter/Widget.php:46-59 | setting or unsetting the same key twice is the same as once |
| WidgetWriter.Writer.BumpAddOnVersionId | library/WidgetFramework/DataWriter/Widget.php:200-217 | on a platform from 1020000 on, with the add-on registered, the add-on version is written when the stored one is empty or loosely different; otherwise the options field is untouched |
| WidgetWriter.BumpWrites | library/WidgetFramework/DataWriter/Widget.php:200-217 | no write below platform 1020000 or without the add-on registered, or when the option already holds the version; a write when both guards pass and the option is empty |
| WidgetWriter.LooseEquals | library/WidgetFramework/DataWriter/Widget.php:212-213 | equal values compare equal; integers compare by value; an integer equals its decimal spelling; `true` equals exactly the non-empty values |
| WidgetWriter.BumpIsIdempotent | library/WidgetFramework/DataWriter/Widget.php:200-217 | after a bump that wrote, the option holds the add-on version and a second bump writes nothing |
| WidgetWriter.PostSaveTemplateAction | library/WidgetFramework/DataWriter/Widget.php:164-227 | a template widget saves its template; a widget that changed class away from a template class deletes it; otherwise nothing happens |
| WidgetWriter.IsTemplateWidget | library/WidgetFramework/DataWriter/Widget.php:219-227 | true exactly for the four template renderer class names, compared strictly |
| WidgetWriter.RebuildsGlobalCache | library/WidgetFramework/DataWriter/Widget.php:61-70 | the global cache is rebuilt iff the skip flag is empty and the widget is on no widget page |
| ProfilePosts.ProfilePostsConfiguration | library/WidgetFramework/WidgetRenderer/ProfilePosts.php:23-35 | the renderer is named "Profile Posts", caches per user for 3600 seconds, and takes `limit` (UINT) and `show_update_form` (BINARY) besides the injected options |
| ProfilePosts.ProfilePostsTitle | library/WidgetFramework/WidgetRenderer/ProfilePosts.php:14-21 | an empty title gives the recent profile posts phrase; any other uses the common title logic |
| ProfilePosts.TitleOverrideOnlyForEmptyTitle | library/WidgetFramework/WidgetRenderer/ProfilePosts.php:14-21 | the override changes the title only when the title is empty |
| ProfilePosts.Limit | library/WidgetFramework/WidgetRenderer/ProfilePosts.php:62-64 | an empty limit is 5, and any other is the option's integer value |
| ProfilePosts.CanUpdateStatus | library/WidgetFramework/WidgetRenderer/ProfilePosts.php:69-73 | the update form is offered iff switched on and the visitor may update their status |
| ProfilePosts.SliceFront | library/WidgetFramework/WidgetRenderer/ProfilePosts.php:122 | `array_slice` from 0 keeps a prefix; a non-negative length keeps that many or all |
| ProfilePosts.VisibleIsFiltered | library/WidgetFramework/WidgetRenderer/ProfilePosts.php:111-121 | a post is kept iff it is the prepared form of a fetched post the visitor can view and does not ignore |
| ProfilePosts.RecentPostsAreVisibleAndBounded | library/WidgetFramework/WidgetRenderer/ProfilePosts.php:100-124 | off the forum-list shortcut, at most `limit` posts are shown. They come from a fetch of `3 * limit`, are viewable and not ignored, and form a prefix of the filtered list |
| ProfilePosts.ForumListShortcut | library/WidgetFramework/WidgetRenderer/ProfilePosts.php:85-90 | on the forum list, with the list's posts present and an equal count, those posts are returned untouched |
| ProfilePosts.GetProfilePosts | library/WidgetFramework/WidgetRenderer/ProfilePosts.php:78-125 | the filter loop and the slice compute `RecentPosts` |
| PhpValues.MapMerge | library/WidgetFramework/DataWriter/Widget.php:51 | a merge has the keys of both arrays; keys only in the first keep their values |
| PhpValues.MapMergeKeepsUniqueKeys | library/WidgetFramework/DataWriter/Widget.php:51 | merging into an array whose keys are distinct leaves the keys distinct |
| PhpValues.MapMergeFind | library/WidgetFramework/DataWriter/Widget.php:51 | a key of the second array holds the recursive merge when both arrays hold an array there, and the second array's value otherwise |

## Left out

- The controller and node-handler files are routing and permission glue around host calls; they are not part of this model.
- `_executeExpression` evaluates PHP code with `create_function`. The model takes the evaluator's verdict as a parameter (`evaluated`). Likewise, the conditional helper's parse and test come in as the `tested` verdict and the `parse` function.
- The cache model's storage, expiry and preloading are abstracted:
  - `prepare` (template preloading, `preloadCache`) is not modelled;
  - the store is a map plus a lock table whose tokens are fresh numbers.
- Restored html is `Restored(html, age)`, not the exact comment markup the source wraps it in (`md5`/`sprintf` formatting).
- Templates, phrases, links and `extraPrepare`'s token substitution are host rendering. Markup is a datatype naming what would be rendered.
- `_render` throwing an exception is not modelled. In the source, nothing releases a lock taken before the throw.
- Randomness (`array_rand`) is the parameter `pick`.
- Concurrency between renders is not modelled. A render runs against one store state, and other renders are whatever state it finds.
- `ForumIds.ChildForumIds`: the recursion over child nodes carries a depth bound (`fuel`). A node tree deeper than the bound is cut off there. The source recurses without bound, and loops forever on a cyclic parent relation.
- `ForumIds.DetectSpecialForums`, `ForumIds.GetForumIdsFromOption`, `ForumIds.SpecialChoices` and `ForumIds.NodeChoices`: option values are pre-classified as special strings or forum ids. PHP's loose comparison is not modelled. Under it, an integer 0 matches every special string. That affects the detection, the `switch` that reads the option, and the `in_array` tests that mark a choice selected, where a selected integer 0 marks every special choice.
- `PhpStrings.IntVal`: it reads `intval` as PHP up to 7.0 does, a sign and the leading digits. From PHP 7.1, a numeric string with an exponent such as `"1e3"` (which `is_numeric` accepts and `_validateOptionValue` keeps) reads as its value, 1000; the model reads 1, as `IntValStopsAtExponent` states. Integers are unbounded: PHP clamps a digit run beyond `PHP_INT_MAX`, the model does not.
- `WidgetRenderer.EffectiveTtl`: a `cache_seconds` string goes through `PhpStrings.IntVal`, so an exponent form gives the PHP 7.0 TTL, not the PHP 7.1 one.
- `WidgetRenderer.ParseOptionsInput`: the loop takes the schema keys in an unspecified order. PHP's `foreach` appends new keys in declaration order. What each key reads is modelled; the order of keys in the stored array is not.
- `PhpValues.MapMerge`: XenForo's `mapMerge` is not shown. It is modelled as its documented recursive merge of arrays under equal keys.
- `WidgetWriter.LooseEquals` covers equal values, `true` against a non-empty value, and an integer against its canonical decimal string. Other loose comparisons, such as leading zeros or floats, are not modelled.
- `WidgetWriter.Decoded`: `unserialize` is a parameter, so the round trip with `serialize` is not modelled.
- `WidgetGroup.LayoutOf`: a non-string layout option counts as `rows`. The option is filtered as a string, so the source's loose `switch` on `true` does not arise.
- `WidgetGroup.Group.Render`: the wrapper template object is described by its parameters (`Wrapper`), not rendered. The layout helper's `prepareConditionalParams` result is an input.
- The data writer's field schema, `_preSave` phrase handling, `keepWidgetChanges` and `_postDelete` are host persistence. They are left out, except the template and global-cache decisions (`PostSaveTemplateAction`, `RebuildsGlobalCache`).
- `ProfilePosts`: the fetch, the permission check and post preparation are host functions, and `_getExtraDataLink`'s version-dependent link is not modelled. Posts carry their ids, which stand for the keys `array_slice` preserves.
- The page's required externals are kept as one list of registrations. The template's static accumulator for them is a separate field, `requiredExternals`.
