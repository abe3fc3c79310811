# syntex, modelled in Dafny

syntex is a build-time macro-expansion engine for Rust, forked from the
compiler's `libsyntax`. This project models its core and proves properties
of the model. The core has two parts.

The first part is the expansion engine, over an abstract syntax tree (`Ast`):
- `MacroExpander::expand` is a worklist loop. It works as follows:
  - invocations are collected from a fragment and replaced by placeholders keyed by fresh marks;
  - they are resolved and expanded one at a time;
  - each result is filed in a bucket by nesting depth;
  - everything is substituted back, deepest first.
- The invocation collector.
- The outcome rules of bang and attribute invocations.
- Hygiene marking.
- The concrete resolver (`syntex/src/resolver.rs`).
- The attribute normalisation pass (`decorator.rs`): `cfg_attr` splitting, `derive` unrolling and decorator dispatch.
- The `derive` modifier.
- The `squash_derive` post-pass.

The second part is self-contained utilities:
- Levenshtein distance and the "did you mean" selector;
- the LEB128 encoders (section 7.6 of the DWARF Version 4 standard);
- the `IndexVec` typed-index vector;
- the BLAKE2b streaming hasher (RFC 7693).

The model follows the source's form:
- **State the source updates in place becomes a class.** These are the resolver, the collector, the macro expander, the placeholder table, the mark counter, `IndexVec`, the BLAKE2b context and the squash folder. Their methods are proved against specification functions.
- **Loops become `while` loops with invariants.** This covers the scheduler, the substitution, `lev_distance`, `select_fold1`, the LEB128 encoders and the BLAKE2b rounds.
- **Pure code becomes functions, and the properties become lemmas.**

Modules:
- `Wrappers`: `Option`, `Result`, `Reverse`.
- `Ast`: the tree and the diagnostic handler.
- `Expansions`: expansion kinds, `make_*`, `dummy` and the config.
- `SyntexResolver`.
- `Hygiene`.
- `Placeholders`.
- `Collector`.
- `Expander`.
- `ExpandTheorems`.
- `Decorator`.
- `Deriving`.
- `SquashDerive`.
- `LevDistance`.
- `Leb128`.
- `IndexedVec`.
- `Blake2b`.

Modelling choices:
- **Panics are error results**, such as `Panic` or `IdxPanic`, wherever a caller can reach them. Preconditions are not used for them.
- **Diagnostics** are appended to a log in `Ast.Handler`.
- **Extensions** are given as maps from names to functions.
- **Marks** come from a counter that starts at 1. Mark 0 is the root.
- **A syntax context** is the list of marks applied to an identifier.

Two behaviours of the code that are easy to misread:
- `expand_decorators_2` emits the residual `derive(...)` entries in reverse source order, not in source order. See `Decorator.DeriveResidualReversed`.
- `expand` never checks `recursion_limit`.

## Model

| member | source | states |
|---|---|---|
| Expansions.KindNameInjective | syntex_syntax/src/ext/expand.rs:52-57 | the kind names are distinct except that an optional expression and an expression are both "expression" |
| Expansions.MakeFrom | syntex_syntax/src/ext/expand.rs:59-64 | `make_from` is None exactly when the result has no fragment for the kind; otherwise it gives a well-shaped expansion of that kind |
| Expansions.DummyExpansion | syntex_syntax/src/ext/expand.rs:133-135 | the dummy of a kind has that kind. It is empty for the item kinds and one dummy node otherwise. It has no placeholder |
| Expansions.MakeNodes | syntex_syntax/src/ext/expand.rs:68-79 | `make_*` succeeds exactly on an expansion of its own kind, returns its nodes, and panics otherwise |
| Expansions.MakeFromThenMake | syntex_syntax/src/ext/expand.rs:59-79 | `make_from` followed by the matching `make_*` returns the result's own fragment |
| Expansions.KindPosition | syntex_syntax/src/ext/expand.rs:137-148 | only the three item kinds have an annotatable position, and each position maps back to its kind |
| Expansions.ExpectFromAnnotatables | syntex_syntax/src/ext/expand.rs:137-148 | gives the annotatables, in order, as item nodes of the kind. It succeeds exactly when the kind is item-like and every annotatable comes from its position; otherwise it panics: `unreachable!()` for a non-item kind, an `expect_*` panic for an annotatable from another position |
| Expansions.DefaultConfig | syntex_syntax/src/ext/expand.rs:1212-1222 | the default config has no features, a recursion limit of 64 and every flag off, so custom derive is disabled |
| Expansions.ItemNodesSlots | syntex_syntax/src/ext/expand.rs:137-148 | the nodes of annotatables carry exactly the annotatables' placeholders |
| Hygiene.MarkCounter.constructor | syntex_syntax/src/ext/expand.rs:759 | the counter starts after the root mark 0 |
| Hygiene.MarkCounter.Fresh | syntex_syntax/src/ext/expand.rs:759 | `Mark::fresh` returns the counter and advances it, so no mark is handed out twice |
| Hygiene.MarkIdent | syntex_syntax/src/ext/expand.rs:1258-1261 | applying a mark keeps the name and appends the mark to the context |
| Hygiene.MarkTts | syntex_syntax/src/ext/expand.rs:1275-1277 | `mark_tts` marks every token and keeps their number and order |
| Hygiene.MarkSegments | syntex_syntax/src/ext/expand.rs:1262-1264 | every path segment's identifier is marked, and its parameters flag is kept |
| Hygiene.MarkMac | syntex_syntax/src/ext/expand.rs:1262-1264 | marking a macro call marks its path and its tokens, and keeps the path's shape |
| Hygiene.MarkSeq | syntex_syntax/src/ext/expand.rs:1255-1272 | the `Marker` fold keeps the number of nodes |
| Hygiene.MarkExpansion | syntex_syntax/src/ext/expand.rs:699-702 | marking an expansion keeps its kind, its shape and its placeholders |
| Hygiene.MarkSeqSlots | syntex_syntax/src/ext/expand.rs:1255-1272 | marking neither adds nor removes a placeholder |
| Hygiene.UnmarkMarkSeq | syntex_syntax/src/ext/expand.rs:1258-1264 | removing the newest mark undoes marking, so no information is lost |
| Hygiene.UnmarkMarkNode | syntex_syntax/src/ext/expand.rs:1258-1264 | the same round trip for one node |
| Hygiene.UnmarkMarkTts | syntex_syntax/src/ext/expand.rs:1275-1277 | the same round trip for token lists |
| Hygiene.UnmarkMarkSegments | syntex_syntax/src/ext/expand.rs:1262-1264 | the same round trip for path segments |
| Hygiene.UnmarkMarkMac | syntex_syntax/src/ext/expand.rs:1262-1264 | the same round trip for macro calls |
| Hygiene.MarkSeqInjective | syntex_syntax/src/ext/expand.rs:1255-1272 | two different fragments never become equal once marked |
| Placeholders.PlaceholderExpansion | syntex_syntax/src/ext/expand.rs:766 | the placeholder of an invocation is a well-shaped expansion of its kind, holding exactly one placeholder, keyed by its mark |
| Placeholders.FillExpansion | syntex_syntax/src/ext/expand.rs:269-270 | filling keeps the kind, and succeeds exactly when filling its nodes succeeds |
| Placeholders.FillSeqOk | syntex_syntax/src/ext/expand.rs:266-272 | filling succeeds exactly when every placeholder has a recorded expansion of its own kind. Otherwise it panics on a missing or mis-kinded one |
| Placeholders.FillNodeOk | syntex_syntax/src/ext/expand.rs:266-272 | the same for one node |
| Placeholders.FillSeqNoSlots | syntex_syntax/src/ext/expand.rs:269-270 | a fragment without placeholders is left unchanged |
| Placeholders.FillNodeNoSlots | syntex_syntax/src/ext/expand.rs:269-270 | the same for one node |
| Placeholders.FillSeqSettles | syntex_syntax/src/ext/expand.rs:266-272 | with a table free of placeholders, a filled fragment has none left |
| Placeholders.FillNodeSettles | syntex_syntax/src/ext/expand.rs:266-272 | the same for one node |
| Placeholders.PlaceholderExpander.constructor | syntex_syntax/src/ext/expand.rs:266 | the table starts empty |
| Placeholders.PlaceholderExpander.Add | syntex_syntax/src/ext/expand.rs:271 | `add` records an expansion under its mark |
| Placeholders.PlaceholderExpander.Remove | syntex_syntax/src/ext/expand.rs:274 | `remove` returns the recorded expansion and drops its entry; a missing mark panics |
| Collector.SlotsOfAppend | syntex_syntax/src/ext/expand.rs:758-767 | the placeholders and payloads of concatenated invocation lists are unions |
| Collector.CollectNodeMarks | syntex_syntax/src/ext/expand.rs:758-767 | the invocations found in a node carry consecutive fresh marks and the collector's depth |
| Collector.CollectSeqMarks | syntex_syntax/src/ext/expand.rs:758-767 | the same for a fragment. The marks are distinct, in discovery order, from the counter on |
| Collector.CollectSeqLength | syntex_syntax/src/ext/expand.rs:920-1168 | collecting keeps the number of nodes |
| Collector.CollectNodeSlots | syntex_syntax/src/ext/expand.rs:758-767 | every invocation leaves its own placeholder, other placeholders come from the input, and payloads only hold input placeholders |
| Collector.CollectSeqSlots | syntex_syntax/src/ext/expand.rs:758-767 | the same for a fragment |
| Collector.CollectCleanSlots | syntex_syntax/src/ext/expand.rs:758-767 | from a fragment without placeholders, the result's placeholders are exactly one per new invocation, and payloads have none |
| Collector.CollectNodeAttrs | syntex_syntax/src/ext/expand.rs:839-846 | every attribute invocation's attribute names a decorator or modifier |
| Collector.CollectSeqAttrs | syntex_syntax/src/ext/expand.rs:839-846 | the same for a fragment |
| Collector.InvocationCollector.constructor | syntex_syntax/src/ext/expand.rs:282-291 | a collector starts with no invocations, at the current depth |
| Collector.InvocationCollector.Collect | syntex_syntax/src/ext/expand.rs:758-767 | `collect` records exactly one invocation with a fresh mark and returns the placeholder keyed by that mark |
| Collector.InvocationCollector.CollectBang | syntex_syntax/src/ext/expand.rs:769-773 | a bang invocation without an ident is recorded, and its placeholder is returned |
| Collector.InvocationCollector.CollectAttr | syntex_syntax/src/ext/expand.rs:833-836 | an attribute invocation is recorded, and its placeholder is returned |
| Collector.InvocationCollector.FoldNode | syntex_syntax/src/ext/expand.rs:1026-1118 | the fold over one node. The rules: macro calls become placeholders; an item's first macro attribute is taken out and the item becomes an attribute invocation; item macros with a path get their ident; the other nodes are searched. It equals `CollectNode`, and the recorded invocations and mark counter advance accordingly |
| Collector.InvocationCollector.FoldSeq | syntex_syntax/src/ext/expand.rs:920-1168 | the fold over a fragment, front to back, equals `CollectSeq` |
| SyntexResolver.FirstMacroAttr | syntex/src/resolver.rs:61-73 | picks the lowest-index attribute naming a decorator or modifier, and is None exactly when there is none |
| SyntexResolver.FirstMacroAttrIs | syntex/src/resolver.rs:61-73 | the first macro attribute is the one with no macro attribute before it |
| SyntexResolver.Resolver.constructor | syntex/src/resolver.rs:25-32 | a new resolver has no extensions and its node id counter at 1 |
| SyntexResolver.Resolver.NextNodeId | syntex/src/resolver.rs:36-47 | returns the counter and increments it. Issued ids strictly increase; the counter at `usize::MAX` panics |
| SyntexResolver.Resolver.GetModuleScope | syntex/src/resolver.rs:48 | always the root mark |
| SyntexResolver.Resolver.AddMacro | syntex/src/resolver.rs:51-55 | always reports a bug |
| SyntexResolver.Resolver.AddExt | syntex/src/resolver.rs:56-58 | after `add_ext(n, e)`, `find_extension(_, n)` is `e` in every scope; re-adding overwrites; other names are unchanged |
| SyntexResolver.Resolver.FindExtension | syntex/src/resolver.rs:74-76 | a plain lookup of the name, whatever the scope |
| SyntexResolver.Resolver.FindAttrInvoc | syntex/src/resolver.rs:61-73 | removes and returns the first macro attribute, keeping the others in order. With none, it returns None and the list unchanged |
| SyntexResolver.Resolver.FindMac | syntex/src/resolver.rs:77-88 | a qualified, global or parameterised path reports an error and gives None; otherwise it looks up the name |
| SyntexResolver.Resolver.ResolveInvoc | syntex/src/resolver.rs:89-111 | bang invocations follow `find_mac`. An attribute invocation looks up the attribute's name; an unknown name reports "macro undefined" and gives None |
| SyntexResolver.Resolver.ResolveDeriveMode | syntex/src/resolver.rs:112-114 | a lookup in `derive_modes` |
| SyntexResolver.DeriveModesNeverFound | syntex/src/resolver.rs:29 | nothing populates `derive_modes`, so `resolve_derive_mode` is always None |
| Expander.BangOutcome | syntex_syntax/src/ext/expand.rs:380-703 | a bang invocation's expansion has the expected kind and shape, with at most one error |
| Expander.AttrOutcome | syntex_syntax/src/ext/expand.rs:346-377 | an attribute invocation's expansion has the invocation's kind |
| Expander.InvocOutcome | syntex_syntax/src/ext/expand.rs:244-250 | resolve-or-dummy: an unresolved invocation gives the dummy of its own kind and the resolver's reports. An empty bang path panics exactly then; `unreachable!()` needs a non-macro attribute |
| Expander.ExpandInvocOutcome | syntex_syntax/src/ext/expand.rs:300-305 | `expand_invoc`: a bang invocation never panics; the fragment has the invocation's kind and is well-shaped; an attribute invocation panics only as `expand_attr_invoc` does and reports nothing |
| Expander.Process | syntex_syntax/src/ext/expand.rs:244-253 | processing one invocation: the invocations found carry consecutive fresh marks from the counter on, each one level deeper than the processed invocation |
| Expander.Advance | syntex_syntax/src/ext/expand.rs:255-261 | filing the expansion and pushing what was found keeps every pending depth within the buckets |
| Expander.Start | syntex_syntax/src/ext/expand.rs:238-242 | the loop starts with one bucket holding the root under mark 0, and every pending invocation within range |
| Expander.File | syntex_syntax/src/ext/expand.rs:255-258 | a bucket is pushed exactly when the depth equals the number of buckets |
| Expander.Step | syntex_syntax/src/ext/expand.rs:243-262 | one turn keeps the bucket invariant: every pending depth is at most the number of buckets, so `expansions[depth]` is in range |
| Expander.MacroExpander.constructor | syntex_syntax/src/ext/expand.rs:204-206 | a new expander is at the root mark and depth 0 |
| Expander.MacroExpander.CollectInvocations | syntex_syntax/src/ext/expand.rs:277-298 | collection at the current depth equals `CollectSeq`, and draws one mark per invocation |
| Expander.MacroExpander.ExpandBangInvoc | syntex_syntax/src/ext/expand.rs:380-703 | equals `BangOutcome`, with its reports appended to the handler |
| Expander.MacroExpander.ExpandAttrInvoc | syntex_syntax/src/ext/expand.rs:346-377 | equals `AttrOutcome` |
| Expander.MacroExpander.ExpandInvoc | syntex_syntax/src/ext/expand.rs:300-305 | equals `ExpandInvocOutcome`: same panic, same fragment, its reports appended to the handler |
| Expander.MacroExpander.ResolveAndExpand | syntex_syntax/src/ext/expand.rs:245-250 | resolve, then expand or dummy, equals `InvocOutcome`: same panic, same fragment, the resolver's and the expansion's reports appended in that order |
| Expander.MacroExpander.ProcessInvocation | syntex_syntax/src/ext/expand.rs:244-253 | resolving, expanding or dummying, then collecting one level deeper, equals `Process`: the fragment, the invocations found, the marks drawn and the reports added are the ones `Process` gives |
| Expander.MacroExpander.Turn | syntex_syntax/src/ext/expand.rs:243-262 | a pop, a process, a file and a reversed push equals `Step`. The stack read from the top is the pending list |
| Expander.MacroExpander.Drive | syntex_syntax/src/ext/expand.rs:243-262 | the `while let` loop equals the run of any turn that agrees with `Step` on every non-empty schedule: it ends, panics or runs out of fuel exactly as the run does, with the same buckets, marks and reports |
| Expander.MacroExpander.Substitute | syntex_syntax/src/ext/expand.rs:266-274 | the nested pop loops equal `Finish`: deepest bucket first, each walked from its end, then mark 0 taken out |
| Expander.MacroExpander.Expand | syntex_syntax/src/ext/expand.rs:235-275 | `expand` equals `Run` followed by `Finish`. Diagnostics and marks advance as the run says, and `current_expansion` is restored |
| ExpandTheorems.BangErrorsGiveDummy | syntex_syntax/src/ext/expand.rs:397-696 | every error path of `expand_bang_invoc` reports exactly one error at the path and gives the dummy of the expected kind. Without an error, the result is a `NormalTT` or `IdentTT` expansion, marked |
| ExpandTheorems.BangErrorMessages | syntex_syntax/src/ext/expand.rs:397-696 | each error has its own message: qualified path; a `NormalTT` with an ident; an `IdentTT` without one; a decorator or modifier with `!`; a result of the wrong kind |
| ExpandTheorems.AttrExpansionItems | syntex_syntax/src/ext/expand.rs:363-374 | a decorator yields its generated items followed by the original item, and a modifier exactly its returned items |
| ExpandTheorems.StartOrder | syntex_syntax/src/ext/expand.rs:238-243 | after the initial reverse, the root's invocations are popped in discovery order, at depth 0 |
| ExpandTheorems.StepOrder | syntex_syntax/src/ext/expand.rs:243-261 | the result of the first pending invocation is filed last in its depth's bucket. Its new invocations (fresh marks, one level deeper, in discovery order) come before the older pending ones, which keep their order (depth first). In single-step mode the new ones are dropped |
| ExpandTheorems.StepMarks | syntex_syntax/src/ext/expand.rs:243-262 | each turn files exactly the popped invocation's mark, and keeps the rest pending |
| ExpandTheorems.FileMarks | syntex_syntax/src/ext/expand.rs:255-258 | filing an entry adds exactly its mark to the buckets |
| ExpandTheorems.EveryPendingProcessed | syntex_syntax/src/ext/expand.rs:243-262 | a completed run has filed every invocation that was pending |
| ExpandTheorems.SingleStepRun | syntex_syntax/src/ext/expand.rs:259-261 | in single-step mode the loop ends within one turn per pending invocation, and files exactly the invocations that were pending: the newly found ones are never processed |
| ExpandTheorems.OutcomeClean | syntex_syntax/src/ext/expand.rs:244-250 | with extensions that make up no placeholders, an invocation expands to a fragment without placeholders |
| ExpandTheorems.MakeFromSlots | syntex_syntax/src/ext/expand.rs:59-64 | `make_from` only takes nodes from the result |
| ExpandTheorems.StartSound | syntex_syntax/src/ext/expand.rs:238-242 | the loop invariant holds at the start, for a root without placeholders |
| ExpandTheorems.StepSound | syntex_syntax/src/ext/expand.rs:243-262 | one turn keeps the invariant. Each placeholder's mark has the placeholder's kind, and is filed deeper, later in the same bucket, or pending at least as deep |
| ExpandTheorems.RunSound | syntex_syntax/src/ext/expand.rs:243-262 | a completed run ends with nothing pending and the invariant intact |
| ExpandTheorems.FillBucketOk | syntex_syntax/src/ext/expand.rs:268-271 | walking a bucket from its end fills every placeholder and records every mark |
| ExpandTheorems.FillBucketsOk | syntex_syntax/src/ext/expand.rs:266-272 | substituting deepest bucket first never misses an expansion, records every filed mark, and leaves no placeholder in the table |
| ExpandTheorems.ExpandComplete | syntex_syntax/src/ext/expand.rs:235-275 | outside single-step mode, with extensions that make up no placeholders, a completed expansion of a placeholder-free root never panics in substitution. The result has the root's kind and no placeholder left |
| Decorator.CfgRewrap | syntex_syntax/src/ext/decorator.rs:76-85 | an unhandled attribute from SPEC is re-wrapped as `cfg_attr(COND, NEW)`, keeping the original COND |
| Decorator.UnhandledWords | syntex_syntax/src/ext/decorator.rs:127-140 | the residual entries are words of the derive list that name no `derive_T` decorator |
| Decorator.UnrollEntry | syntex_syntax/src/ext/decorator.rs:127-140 | one derive entry: a word is tried as `derive_T`, and any other entry is reported as malformed and dropped |
| Decorator.Decorators3Handled | syntex_syntax/src/ext/decorator.rs:169-195 | `expand_decorators_3` is handled exactly for a decorator's name; any other name adds no items and reports nothing |
| Decorator.UnrollFacts | syntex_syntax/src/ext/decorator.rs:127-140 | the entries left unhandled are the unhandled words in reverse list order, and every non-word entry is reported |
| Decorator.Decorators2Facts | syntex_syntax/src/ext/decorator.rs:112-158 | for `derive`, the new attribute is the residual of the unhandled words reversed; an empty list only warns. Any other attribute is dropped if a decorator handled it, and kept otherwise |
| Decorator.DecorateOneFacts | syntex_syntax/src/ext/decorator.rs:51-89 | a two-entry `cfg_attr` yields what its SPEC yields, with `#[cfg(COND)]` appended to every item and every new attribute under the same COND. Other shapes go to `expand_decorators_2` |
| Decorator.InertDecorators | syntex_syntax/src/ext/decorator.rs:43-92 | attributes the pass does not act on pass through unchanged and add nothing |
| Decorator.InertAnnotatable | syntex_syntax/src/ext/decorator.rs:10-23 | with no such attribute, `expand_annotatable` is `expand_multi_modified` of the item |
| Decorator.SingleDecorator | syntex_syntax/src/ext/decorator.rs:10-23 | one decorator attribute: the stripped item goes to `expand_multi_modified`, followed by the decorator's items, each expanded in turn |
| Decorator.UnhandledDeriveReversed | syntex_syntax/src/ext/decorator.rs:127-140 | a derive list naming no decorator is left entirely unhandled, reversed |
| Decorator.DeriveResidualReversed | syntex_syntax/src/ext/decorator.rs:141-151 | the residual `derive(...)` lists the entries in reverse source order |
| Decorator.ExpandAllNoneExtends | syntex_syntax/src/ext/decorator.rs:17-22 | running out of fuel in one item makes the whole expansion run out |
| Decorator.DecoratorsNoneExtends | syntex_syntax/src/ext/decorator.rs:43-92 | the same for one attribute of the loop |
| Decorator.UnrollNoneExtends | syntex_syntax/src/ext/decorator.rs:127-140 | the same for one derive entry |
| Decorator.DecoratorsStep | syntex_syntax/src/ext/decorator.rs:43-92 | the attribute loop takes one attribute at a time, in order |
| Decorator.UnrollStep | syntex_syntax/src/ext/decorator.rs:127-140 | the reversed derive loop takes one entry at a time, from the end |
| Decorator.ExpandAnnotatable | syntex_syntax/src/ext/decorator.rs:10-23 | equals `ExpandAnnotatableSpec`: the modified item or items followed by all decorator items, reports appended |
| Decorator.ExpandDecorators | syntex_syntax/src/ext/decorator.rs:43-92 | the attribute loop equals `DecoratorsSpec` |
| Decorator.DecorateOne | syntex_syntax/src/ext/decorator.rs:51-89 | one attribute of the loop equals `DecorateOneSpec` |
| Decorator.ExpandDecorators2 | syntex_syntax/src/ext/decorator.rs:112-158 | equals `Decorators2Spec` |
| Decorator.UnrollDerive | syntex_syntax/src/ext/decorator.rs:127-140 | the reversed derive loop equals `UnrollSpec` |
| Decorator.ExpandDecorators3 | syntex_syntax/src/ext/decorator.rs:162-196 | equals `Decorators3Spec` |
| Deriving.BuiltinTraitsExactly | syntex_syntax/src/ext/deriving/mod.rs:76-107 | `is_builtin_trait` is true for exactly the sixteen listed names |
| Deriving.DeriveWordAttr | syntex_syntax/src/ext/deriving/mod.rs:57-60 | the new attribute is a `derive_` word that strips back to the entry |
| Deriving.ExpandDerive | syntex_syntax/src/ext/deriving/mod.rs:24-69 | on an item, appends `derive_T` for each accepted entry in reverse list order and reports the rest; any other annotatable is reported and returned unchanged |
| Deriving.AcceptedTraits | syntex_syntax/src/ext/deriving/mod.rs:40-61 | the accepted entries are entries of the list that pass the gate |
| Deriving.DerivedAttrsAreReversedAccepted | syntex_syntax/src/ext/deriving/mod.rs:40-61 | the appended attributes are exactly `derive_T` of the accepted entries, reversed |
| Deriving.DeriveThenSquash | syntex/src/squash_derive.rs:31-40 | `squash_derive` after `expand_derive` gives one `derive(...)` of the accepted traits reversed, after the item's other attributes |
| Deriving.BuiltinAlwaysAccepted | syntex_syntax/src/ext/deriving/mod.rs:49-56 | builtin traits are always accepted and never reported |
| Deriving.GateDecides | syntex_syntax/src/ext/deriving/mod.rs:49-56 | without `custom_derive`, a word is accepted exactly when it is builtin; any other word gets a feature error |
| Deriving.EntriesAccountedFor | syntex_syntax/src/ext/deriving/mod.rs:40-61 | every entry gives either one attribute or one report |
| Deriving.RegisterAll | syntex_syntax/src/ext/deriving/mod.rs:71-74 | `derive` is registered as a modifier that runs `expand_derive`; other names are unchanged |
| SquashDerive.StrippedWord | syntex/src/squash_derive.rs:96-103 | `derive_` followed by the stripped name is the original word |
| SquashDerive.Kept | syntex/src/squash_derive.rs:121-132 | the kept attributes contain no `derive_` word |
| SquashDerive.DeriveEntries | syntex/src/squash_derive.rs:96-117 | the collected entries are words |
| SquashDerive.FirstDerive | syntex/src/squash_derive.rs:104-116 | the first `derive_` word, or None exactly when none is present |
| SquashDerive.IntoDeriveAttr | syntex/src/squash_derive.rs:52-77 | `into_attr` builds `derive(...)` from the collected entries, with the first `derive_` attribute's id, style, doc flag and span |
| SquashDerive.SquashDeriveAttrFolder.constructor | syntex/src/squash_derive.rs:33 | the folder starts with nothing collected |
| SquashDerive.SquashDeriveAttrFolder.FoldAttribute | syntex/src/squash_derive.rs:89-133 | a `derive_` word is absorbed and dropped; the first one sets the metadata and later ones push their entry. Any other attribute is returned unchanged |
| SquashDerive.SquashDeriveAttrFolder.IntoAttr | syntex/src/squash_derive.rs:52-77 | None exactly when nothing was collected |
| SquashDerive.FoldItemAttrs | syntex/src/squash_derive.rs:31-40 | folding every attribute and appending the combined one equals `Squashed` |
| SquashDerive.FoldStep | syntex/src/squash_derive.rs:89-133 | one attribute more takes one step of the kept list and of the collection |
| SquashDerive.KeptAppend | syntex/src/squash_derive.rs:121-132 | filtering one attribute more |
| SquashDerive.EntriesAppend | syntex/src/squash_derive.rs:96-117 | collecting one attribute more |
| SquashDerive.FirstDeriveAppend | syntex/src/squash_derive.rs:104-116 | as the first `derive_` word of a longer list |
| SquashDerive.KeptConcat | syntex/src/squash_derive.rs:121-132 | filtering distributes over concatenation |
| SquashDerive.EntriesConcat | syntex/src/squash_derive.rs:96-117 | collecting distributes over concatenation |
| SquashDerive.OnlyDeriveWords | syntex/src/squash_derive.rs:95-120 | only `derive_` words leave nothing kept |
| SquashDerive.NoDeriveNoEntries | syntex/src/squash_derive.rs:121-132 | no `derive_` word means nothing collected and everything kept |
| SquashDerive.SquashedUnchanged | syntex/src/squash_derive.rs:35-37 | with no `derive_` word, the attribute list is unchanged |
| SquashDerive.SquashedShape | syntex/src/squash_derive.rs:35-37 | otherwise: the other attributes in order, then one `derive(...)` of the stripped names in order, with the first `derive_` attribute's metadata |
| SquashDerive.KeptExactly | syntex/src/squash_derive.rs:121-132 | an attribute survives exactly when it is in the list and is not a `derive_` word |
| SquashDerive.EntriesCount | syntex/src/squash_derive.rs:96-132 | one entry per removed `derive_` word |
| SquashDerive.SquashExample | syntex/src/squash_derive.rs:175-218 | `[derive_A, derive_B]` becomes `[derive(A, B)]` |
| SquashDerive.SquashedHasNoDeriveWord | syntex/src/squash_derive.rs:31-40 | no `derive_` word is left after squashing |
| SquashDerive.SquashedIdempotent | syntex/src/squash_derive.rs:31-40 | squashing twice is squashing once |
| SquashDerive.SquashNode | syntex/src/squash_derive.rs:30-45 | the fold keeps item nodes as items, in the same position, with the same ident and span |
| SquashDerive.SquashSeq | syntex/src/squash_derive.rs:30-45 | the fold keeps the number of nodes |
| SquashDerive.SquashCrate | syntex/src/squash_derive.rs:24-26 | `squash_derive` folds every top-level node |
| SquashDerive.SquashSeqAt | syntex/src/squash_derive.rs:30-45 | the fold works node by node |
| SquashDerive.SquashNodeSlots | syntex/src/squash_derive.rs:30-45 | only attributes change: no placeholder appears or disappears |
| SquashDerive.SquashSeqSlots | syntex/src/squash_derive.rs:30-45 | the same for a fragment |
| SquashDerive.SquashNodeIdempotent | syntex/src/squash_derive.rs:30-45 | squashing a tree twice is squashing it once |
| SquashDerive.SquashSeqIdempotent | syntex/src/squash_derive.rs:30-45 | the same for a fragment |
| LevDistance.LevSymmetric | syntex_syntax/src/util/lev_distance.rs:122-127 | the distance is symmetric |
| LevDistance.AppendRight | syntex_syntax/src/util/lev_distance.rs:15-43 | appending a character to the second string changes the distance by at most one |
| LevDistance.AppendLeft | syntex_syntax/src/util/lev_distance.rs:15-43 | the same for the first string |
| LevDistance.MatchingLast | syntex_syntax/src/util/lev_distance.rs:30-35 | a common last character can be dropped |
| LevDistance.LevSelf | syntex_syntax/src/util/lev_distance.rs:113-117 | the distance of a string to itself is zero |
| LevDistance.LevCell | syntex_syntax/src/util/lev_distance.rs:28-38 | one cell of the table is the minimum of the three neighbours, as the one-column DP computes it |
| LevDistance.Row | syntex_syntax/src/util/lev_distance.rs:24-41 | the table row has one entry per prefix of `b` |
| LevDistance.LevDistance | syntex_syntax/src/util/lev_distance.rs:16-43 | `lev_distance` is the Levenshtein distance over characters; with one string empty it is the other's length |
| LevDistance.NextRow | syntex_syntax/src/util/lev_distance.rs:27-41 | the inner loop turns row `i` into row `i + 1` in place |
| LevDistance.SelectFromMember | syntex_syntax/src/util/lev_distance.rs:95-106 | the selection is an element with its own projection |
| LevDistance.SelectFold1 | syntex_syntax/src/util/lev_distance.rs:85-107 | `select_fold1` is None exactly on no elements; otherwise an element with its projection, as the fold specifies |
| LevDistance.MinByKeyIsFirstMinimum | syntex_syntax/src/util/lev_distance.rs:66-83 | `min_by_key` gives an element of least key, the first one on ties, and None only for no elements |
| LevDistance.FirstMinimumExtendKeep | syntex_syntax/src/util/lev_distance.rs:66-83 | a first minimum stays first if the new element's key is not smaller |
| LevDistance.FirstMinimumExtendNew | syntex_syntax/src/util/lev_distance.rs:66-83 | a strictly smaller new key becomes the first minimum |
| LevDistance.SelectFold1Snoc | syntex_syntax/src/util/lev_distance.rs:95-106 | the fold over one element more takes one step |
| LevDistance.FirstNearestExtendKeep | syntex_syntax/src/util/lev_distance.rs:49-64 | the nearest name so far stays first if the new one is not nearer |
| LevDistance.FirstNearestExtendNew | syntex_syntax/src/util/lev_distance.rs:49-64 | a strictly nearer new name takes over |
| LevDistance.Utf8Len | syntex_syntax/src/util/lev_distance.rs:53 | `str::len` counts UTF-8 bytes: between one and four per character, and exactly one per character for ASCII text |
| LevDistance.Threshold | syntex_syntax/src/util/lev_distance.rs:53 | the given limit when there is one; otherwise the UTF-8 byte length (at least 3) divided by three, so at least one |
| LevDistance.NonAsciiThreshold | syntex_syntax/src/util/lev_distance.rs:53 | a name of four two-byte characters is eight bytes long and gets the default threshold two |
| LevDistance.BestMatchIsFirstNearest | syntex_syntax/src/util/lev_distance.rs:49-64 | the suggestion is within the threshold (the default one measured in UTF-8 bytes), nearest, and first on ties. There is one exactly when some name is within the threshold |
| LevDistance.CandidateDistance | syntex_syntax/src/util/lev_distance.rs:54-62 | every candidate is a name carrying its own distance, within the bound it is filtered by (`Threshold`, whose default counts UTF-8 bytes) |
| Leb128.Pow128Table | syntex_syntax/src/rustc_data_structures/leb128.rs:21-41 | 128-bit values fit in 19 groups of seven bits |
| Leb128.ShiftShrinks | syntex_syntax/src/rustc_data_structures/leb128.rs:56-60 | the arithmetic shift by seven moves the value towards 0 or -1 |
| Leb128.UnsignedContinuation | syntex_syntax/src/rustc_data_structures/leb128.rs:26-37 | at least one byte; 0x80 on every byte but the last; zero is the single byte 0x00 |
| Leb128.UnsignedRoundTrip | syntex_syntax/src/rustc_data_structures/leb128.rs:26-29 | decoding the low seven bits as little-endian base-128 digits gives back the value |
| Leb128.UnsignedLength | syntex_syntax/src/rustc_data_structures/leb128.rs:25-38 | a value below 128^k takes at most k bytes |
| Leb128.U128AtMost19Bytes | syntex_syntax/src/rustc_data_structures/leb128.rs:25-38 | every `u128` takes at most 19 bytes |
| Leb128.SignedContinuation | syntex_syntax/src/rustc_data_structures/leb128.rs:55-71 | the signed stop rule: 0x80 on every byte but the last, where the remaining value is 0 with 0x40 clear or -1 with 0x40 set |
| Leb128.SignedRoundTrip | syntex_syntax/src/rustc_data_structures/leb128.rs:56-69 | decoding with sign extension from bit 0x40 of the last byte gives back the value |
| Leb128.SignedLength | syntex_syntax/src/rustc_data_structures/leb128.rs:55-71 | a value in [-64·128^(k-1), 64·128^(k-1)) takes at most k bytes |
| Leb128.I128AtMost19Bytes | syntex_syntax/src/rustc_data_structures/leb128.rs:55-71 | every `i128` takes at most 19 bytes |
| Leb128.WriteUnsignedLeb128To | syntex_syntax/src/rustc_data_structures/leb128.rs:21-41 | writes the unsigned encoding at positions 0..n-1 in order and returns n, between 1 and 19 |
| Leb128.WriteSignedLeb128To | syntex_syntax/src/rustc_data_structures/leb128.rs:50-73 | writes the signed encoding at positions 0..n-1 in order and returns n, between 1 and 19 |
| IndexedVec.IdxNew | syntex_syntax/src/rustc_data_structures/indexed_vec.rs:30-38 | `new` is the identity for `usize`; for `u32` it asserts the index fits, and `index(new(i)) == i` |
| IndexedVec.IndexVec.New | syntex_syntax/src/rustc_data_structures/indexed_vec.rs:78-81 | an empty vector |
| IndexedVec.IndexVec.WithCapacity | syntex_syntax/src/rustc_data_structures/indexed_vec.rs:83-86 | an empty vector |
| IndexedVec.IndexVec.FromElem | syntex_syntax/src/rustc_data_structures/indexed_vec.rs:88-93 | one copy of the element per slot of the universe |
| IndexedVec.IndexVec.FromElemN | syntex_syntax/src/rustc_data_structures/indexed_vec.rs:95-100 | n copies of the element |
| IndexedVec.IndexVec.Len | syntex_syntax/src/rustc_data_structures/indexed_vec.rs:109-112 | the number of slots |
| IndexedVec.IndexVec.IsEmpty | syntex_syntax/src/rustc_data_structures/indexed_vec.rs:114-117 | true exactly for no slots |
| IndexedVec.IndexVec.Last | syntex_syntax/src/rustc_data_structures/indexed_vec.rs:134-137 | None exactly when empty, otherwise `len - 1`; the `u32` range assertion can fail |
| IndexedVec.IndexVec.Get | syntex_syntax/src/rustc_data_structures/indexed_vec.rs:154-157 | Some exactly when the index is in range, and then that slot |
| IndexedVec.IndexVec.Push | syntex_syntax/src/rustc_data_structures/indexed_vec.rs:102-107 | appends and returns the previous length, which then gets the element; a `u32` overflow panics before anything is pushed |
| IndexedVec.IndexVec.Swap | syntex_syntax/src/rustc_data_structures/indexed_vec.rs:144-147 | exchanges two slots and leaves every other slot unchanged; an index out of bounds panics |
| IndexedVec.IndexVec.Truncate | syntex_syntax/src/rustc_data_structures/indexed_vec.rs:149-152 | keeps the first `min(a, len)` slots |
| IndexedVec.IndexVec.Resize | syntex_syntax/src/rustc_data_structures/indexed_vec.rs:166-169 | keeps the prefix and fills new slots with the value |
| Blake2b.G | syntex_syntax/src/rustc_data_structures/blake2b.rs:53-69 | G of RFC 7693 section 3.1 keeps the working vector at sixteen words |
| Blake2b.GPositions | syntex_syntax/src/rustc_data_structures/blake2b.rs:53-69 | G writes the mixed words to its four positions and changes no other position |
| Blake2b.Compress | syntex_syntax/src/rustc_data_structures/blake2b.rs:79-155 | compression F of RFC 7693 section 3.2 maps an 8-word chaining value to an 8-word one |
| Blake2b.InitialVector | syntex_syntax/src/rustc_data_structures/blake2b.rs:96-110 | the working vector is `h ++ IV` with the counter xored into words 12 and 13, and word 14 inverted for the last block |
| Blake2b.FeedForward | syntex_syntax/src/rustc_data_structures/blake2b.rs:148-154 | `h[i] ^= v[i] ^ v[i + 8]` |
| Blake2b.WordsBytesRoundTrip | syntex_syntax/src/rustc_data_structures/blake2b.rs:113-118 | reading a block as little-endian words and writing them back gives the block |
| Blake2b.LeWordBytes | syntex_syntax/src/rustc_data_structures/blake2b.rs:113-118 | a little-endian word's bytes are the bytes it was read from |
| Blake2b.Pad | syntex_syntax/src/rustc_data_structures/blake2b.rs:203-208 | the last block is zero-filled to 128 bytes |
| Blake2b.FullBlocks | syntex_syntax/src/rustc_data_structures/blake2b.rs:160-181 | the last block holds 1 to 128 bytes, or none for the empty message |
| Blake2b.ChainPrefix | syntex_syntax/src/rustc_data_structures/blake2b.rs:160-181 | the chaining value depends only on the blocks already compressed |
| Blake2b.CounterAdd | syntex_syntax/src/rustc_data_structures/blake2b.rs:166-169 | the wrapping add on `t[0]` with a carry into `t[1]` adds to the 128-bit counter |
| Blake2b.HashWithLinks | syntex_syntax/src/rustc_data_structures/blake2b.rs:157-221 | the context's named links compute the RFC 7693 hash |
| Blake2b.B2bG | syntex_syntax/src/rustc_data_structures/blake2b.rs:53-69 | `b2b_g` in place equals G |
| Blake2b.Blake2bCompress | syntex_syntax/src/rustc_data_structures/blake2b.rs:79-155 | `blake2b_compress` in place equals F on the buffer read as words |
| Blake2b.Rounds12 | syntex_syntax/src/rustc_data_structures/blake2b.rs:119-146 | the round loop equals twelve rounds with the schedule |
| Blake2b.MixInto | syntex_syntax/src/rustc_data_structures/blake2b.rs:139-155 | the twelve rounds on the working vector then the feed-forward equal F's output on the chaining value |
| Blake2b.XorHalves | syntex_syntax/src/rustc_data_structures/blake2b.rs:148-154 | the final loop equals the feed-forward |
| Blake2b.Blake2bCtx.constructor | syntex_syntax/src/rustc_data_structures/blake2b.rs:26-37 | a context with the given chaining value and nothing absorbed |
| Blake2b.Blake2bCtx.AddToCounter | syntex_syntax/src/rustc_data_structures/blake2b.rs:166-169 | the counter grows by n modulo 2^128 |
| Blake2b.Blake2bCtx.Update | syntex_syntax/src/rustc_data_structures/blake2b.rs:157-192 | `update` asserts the context is not finalized. Otherwise it absorbs the data, keeping `c` in 1..128 for a non-empty message, so a full buffer waits |
| Blake2b.Blake2bCtx.Absorb | syntex_syntax/src/rustc_data_structures/blake2b.rs:160-181 | the buffer state machine: the buffer holds the last bytes, the counter the bytes before them, and `h` the chain over them |
| Blake2b.Blake2bCtx.ZeroFill | syntex_syntax/src/rustc_data_structures/blake2b.rs:203-208 | zero-fills `b[c..128]` |
| Blake2b.Blake2bCtx.Final | syntex_syntax/src/rustc_data_structures/blake2b.rs:194-221 | `final` asserts the context is not finalized, then leaves `h` equal to the hash of everything absorbed and sets `finalized` |
| Blake2b.Blake2bHasher.Write | syntex_syntax/src/rustc_data_structures/blake2b.rs:238-240 | feeds the bytes to the context |
| Blake2b.Blake2bHasher.Finish | syntex_syntax/src/rustc_data_structures/blake2b.rs:242-247 | asserts `outlen == 8`, and gives the first chaining word, which is the hash's first word once finalized |
| Blake2b.Blake2bHasher.Finalize | syntex_syntax/src/rustc_data_structures/blake2b.rs:250-260 | runs `final` at most once and returns the first `outlen` bytes of the hash, the same bytes on every call |

## Left out

- **File I/O, parsing and pretty-printing:**
  - `Registry::expand` (`syntex/src/lib.rs`, `src/lib.rs`);
  - the build scripts;
  - the error glue (`syntex/src/error.rs`);
  - the example macro crate.
- **The HEAD and merged-ancestor sides of the conflict blocks in `expand.rs`.** The origin/rust side is modelled.
- **The real AST and its `Folder` traversal.** The tree is abstract:
  - a node is a leaf, a branch, an annotatable item, a macro call, a placeholder or a dummy;
  - the collector's `fold_*` overrides become one fold over it;
  - the trailing-semicolon rule of `fold_stmt` is not modelled.
- **`cfg` stripping (`StripUnconfigured`), spans and backtraces (`bt_push`, `new_span`).**
- **Feature gating of bang invocations** (`expand.rs:391-395`), together with its `ecfg.features.unwrap()`.
- **The module path computation and extern-crate macro loading in `fold_item`.**
- **`macro_rules!` definitions handled in `expand_bang_invoc`, and `visit_expansion`.**
- **Node id renumbering (`new_id`).**
- **Sources that are not part of this model: `placeholders.rs`, `hygiene.rs` and `base.rs`.** Their parts are modelled abstractly:
  - `placeholder` is one placeholder node;
  - `PlaceholderExpander` is a table from marks to filled expansions, and a missing mark panics;
  - `apply_mark` appends the mark to the identifier's context;
  - `DummyResult::any` is one dummy node for the expression, pattern, type and statement kinds, and no items.
- **Finding a placeholder does not remove it from the table.** The fold looks it up instead. Fresh marks make every mark distinct, so this is only observable for duplicated marks.
- **Single-step mode, as modelled, leaves placeholders missing.** The placeholders of discarded invocations are never filled, so substitution reports `MissingExpansion` for them. The unshown `placeholders.rs` decides what really happens.
- **Attribute ids made by `cx.attribute` are 0.** The global id counter is not shown.
- **Message formatting of diagnostics.** Only the kind, level and span of each report are kept.
- **`IndexVec` glue:** the serde, iterator and `Debug` implementations.
- **BLAKE2b internals:**
  - the `transmute`, endianness and raw memory copy are modelled as bytes read as little-endian words;
  - the debug-only FNV hash is not modelled.
- LevDistance.LevDistance: strings are sequences of characters, so the `dcol` sizing by byte length is not modelled.
- Expander.Run: the loop is bounded by `fuel` turns and gives `None` when the bound is reached. Extensions are arbitrary functions, whose results may contain invocations without end. The source loops until nothing is pending and checks no recursion limit.
- Decorator.ExpandAnnotatable: recursion through generated items is bounded by `fuel` for the same reason, and gives `None` at the bound.
- IndexedVec.IndexVec.Push: requires fewer than `usize::MAX` elements, so the capacity-overflow panic of `Vec::push` is not modelled. The index check made before the push is modelled.
- Blake2b.Blake2bCtx.AddToCounter: the carry into `t[1]` wraps modulo 2^64, where `t[1] += 1` panics on overflow in a debug build. That needs 2^128 absorbed bytes.
- Deriving.RegisterAll: the registered `derive` transform returns only the item `expand_derive` produces. The diagnostics of that call are dropped, because an extension is a pure function of its arguments. `Deriving.ExpandDerive` keeps them.
- Expander.BangOutcome: the `IdentTT` result is passed the invocation's attributes; `allow_internal_unstable` and the other flags of extensions are not modelled.
