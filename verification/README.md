# Fabric Topology: a verified model

Fabric Topology governs one in-memory graph: nodes bound to registry entities, typed relationships between them,
scopes with delegated authority, and publications from workers that are reconciled into the graph. This project
models that runtime in Dafny and proves what it keeps, what it undoes and what it returns, over every input and
every run.

The model has two layers.

- **Steps as functions of a state.** `types`, `orders`, `graph`, `authority`, `mutations` and `reconcile` define the
  state and what every operation makes of it: which request is refused with which outcome, what the graph is
  afterwards, and what its key lookup and its name lookup find afterwards. The laws about single operations,
  publications and whole runs are proved here (`mutation_laws`, `draft_laws`, `publish_laws`, `frame_laws`,
  `entry_laws`, `draft_names`, `snapshot_laws`, `permutation_laws`, `republish_laws`, `names_laws`, `runs`,
  `lookup_laws`, `stamp_laws`, `binding_laws`, `naming_laws`, `authority_laws`, `snapshots`, `sessions`). Besides what
  a step keeps, they say what it takes and what it achieves, over stored fields and registry records: who must hold
  which grant (`grant_laws`), when each request commits and what it has then done (`effect_laws`, `node_effects`,
  `link_effects`), what a refused caller is told (`refusal_laws`), which publications are accepted and what they leave
  on file (`acceptance_laws`, `report_laws`), what validation comes to (`validity_laws`), and the relation rules read
  by node class (`rule_tables`).
- **The code as it is written.** `graph_state` is the stored graph with its twelve derived indexes kept in place,
  `state_txn` and `batch_undo` the undo log, `validators`, `cycles`, `colour_search` and `traversal` the graph
  algorithms with their stacks, marks and queues, `reconciler` the loops of a publication over a candidate graph, and
  `engine` every public operation on top of them. Each method is proved to make exactly the step of the first layer,
  from every state that an earlier step may have left, so the laws hold of the indexed, logged, in-place code.

`codec`, `records`, `image`, `image_records`, `recovery`, `recovery_laws`, `frames` and `digest` do the same for the
byte formats: the little-endian record codec, the durable state image, what a restart makes of it and how currentness
returns, the frame stream, its reassembly and the damage it detects, and the block and table loops of the digests.

**Soundness** comes in three levels, because the code keeps the first always and the others except in the places
named below.

- `Graphs.Shaped`: nodes and edges are filed under their own ids, no entity occurs twice, endpoints exist, undirected
  edges are stored in normalized order, scopes are declared, and the edges of each acyclic relation class that are
  neither retired nor superseded form no cycle. Every step keeps it, without exception.
- `Graphs.Structured`: moreover no edge key occurs twice.
- `Graphs.Sound`: moreover no relationship name occurs twice.

**Lookups** are part of the state (`Graphs.Lookups`), because the code finds relationships by key and by name in two
indexes that can lose an edge: filing an edge takes its key and name over from whatever held them, and withdrawing it
gives them up. `Graphs.Complete` says that every edge is found by both. Nothing is assumed of the lookups unless a law
says so; `lookup_laws` proves exactly which steps lose something.

A **run** (`Runs.Run`) is any sequence of mutations, publications, registrations, fencings, epoch advances, scope
declarations and snapshot numberings, each one atomic, with any registry content at each step and with durable writes
succeeding or failing at will.

## Where the code does less than it promises

The model does what the code does. In these places that is not what the code's comments and tests promise; the exact
condition is proved, and `witnesses` and `publication_witnesses` hold concrete runs that fail it.

- A publication checks relationship names only against its own entries, not against the graph. In every mode it keeps
  the graph sound exactly when no relationship it files claims a name whose holder stays (`NamesLaws.NamesSettle`).
- A state with a name used twice is saved without complaint, and its image is refused by the loader: an image can be
  loaded exactly when no name is used twice (`Recovery.SaveThenLoad`).
- A `move_attachment` to its current target commits and stores the relationship twice; one onto a derived name in use
  commits and stores the name twice. The graph stays sound exactly when no edge, listed or not, stands for the new
  relationship or holds the derived name.
- An edge that carries an attachment never moves: `move_attachment` counts the edge that is to move as the one current
  exclusive attachment of its node, so a move commits only for an edge without one (`LinkEffects.MoveTakesEffect`).
- A `move_attachment` that takes a key or a name over loses the edge it takes it from: one that commits from any edge,
  one that is undone because it cannot be made durable from any edge but the moved one. A committed publication loses
  an edge, or uses a name twice, exactly when a relationship it files claims the name of an edge that its entries leave
  in place. No other step loses anything, and a restart finds everything again (`LookupLaws.StepKeepsLookups`,
  `Recovery.RestartIsConservative`).
- Where a name is lost, `add_relationship` commits it a second time; where a key is lost, a move commits it a second
  time. Keys and names stay unique exactly when no committed step files one that some edge has, found or not
  (`Runs.StepSoundExactlyWhen`).
- Where a key is lost, a publication that reports its relationship under the identifier of the lost edge files
  nothing, tells nobody and commits. Where a name is lost, declaring it absent finds nothing and leaves its holder
  live. A snapshot's scope is exact when the mentioned keys and the absent names are found and no two present entries
  are stored under one name that is declared absent; the last condition is also necessary
  (`SnapshotLaws.SnapshotIsExact`).
- A `move_attachment` whose new edge id is taken is refused and erases the edge that holds the id.
- An `add_relationship` whose identifier and key belong to an edge that the key lookup misses is refused and erases
  that edge.
- A failed `replace_endpoint_generation` leaves the node with its new binding, because the undo log was given the
  edited node.
- These last three failures are the only steps that change nodes or edges without changing generation or epoch
  (`StampLaws.ResidueBreaksStamp`).
- A publication that is repeated under a fresh identifier is refused when one of its logical entries was skipped as
  stale and its support is not physical any more, for instance because the same publication changed the support's
  layer. In every other case it changes nothing.
- Withdrawing a cross-domain edge does not drop the index entry of its secondary scope. The indexes equal rebuilt ones
  exactly when the edge was not the last thing in an undeclared scope.
- Restating an existing relationship through `add_relationship` makes it current without taking over its provenance;
  replacing a registration fences the old boot without demoting its edges; nodes published as not present count as
  mentioned; declared absences are honoured in every mode. The model follows the code in each.
- A publication for one scope may restate a node of another scope by naming its identifier and entity; nothing else
  outside its scope changes, but for edges of nodes it binds anew (`ReportLaws.OtherScopesStay`).

## Model

| member | source | states |
|---|---|---|
| `RuleTables.EndpointRules` | src/types.cpp:210-278 | the endpoint rules of the relations agree with what each class of node may start and end |
| `RuleTables.EntityRules` | src/types.cpp:280-297 | which classes of node stand for which class of entity |
| `RuleTables.LayerRules` | src/types.cpp:210-278 | cabled relations are never logical, overlaid ones never physical, the others either; only connections and peerings have no direction |
| `RuleTables.MetadataRules` | src/metadata.cpp:30-70 | metadata is in order exactly when it has few enough entries, as many keys as entries and none empty, only printable characters, and little enough text in each place and in all |
| `Types.LessIsLexicographic` | include/fabric_topology/ids.hpp:70 | one identifier is smaller than another exactly when it ends or has the smaller character where they first differ |
| `Types.ResolveLayer` | src/graph_state.cpp:809-826 | the stored layer is always one the relation permits, is the requested one when there is a request, and is missing exactly when the request is refused or the policy needs one |
| `Graphs.SameKey` | src/graph_state.cpp:17-30 | two endpoint pairs get one edge key exactly when they are the same pair, or the swapped pair of an undirected relation |
| `Graphs.Normalize` | src/graph_state.cpp:801-807 | the stored orientation is a fixed point of normalization and keeps the key in every scope |
| `Paths.AddArcAcyclic` | src/graph_state.cpp:575-611 | adding an arc keeps a graph acyclic if and only if the arc's target does not already reach its source |
| `Graphs.NewEdgeStaysAcyclic` | src/reconciliation.cpp:249-256 | filing a live edge keeps every acyclic relation class acyclic if and only if the cycle check says no |
| `Cycles.ClosesCycle` | src/graph_state.cpp:575-611 | the explicit-stack search over the outgoing index terminates and answers yes exactly when the target reaches the source over edges of the relation that are neither retired nor superseded |
| `GraphStates.GraphState.WouldCreateCycle` | src/graph_state.cpp:575-611 | the same, on the stored graph |
| `ColourSearch.Explore` | src/validation.cpp:247-275 | one run of the white/grey/black search: the root and every node it marks end black, every report lies on a cycle, and without a report finishing order ranks the nodes |
| `ColourSearch.FindCycles` | src/validation.cpp:243-276 | for every adjacency and every iteration order the search terminates, reports something exactly when there is a directed cycle, and every reported node lies on one |
| `ColourSearch.ReportCycles` | src/validation.cpp:229-277 | the search on the adjacency gathered from the edges decides acyclicity of one relation class |
| `Validators.ValidateTopology` | src/validation.cpp:46-282 | whole-graph validation, node loop, edge loop with seen keys and slots, and cycle search, answers exactly whether the topology is valid |
| `Validators.ValidateEdges` | src/validation.cpp:126-226 | the edge loop accepts exactly when each edge is valid by itself and no key and no exclusive slot occurs twice |
| `Validators.Validate` | src/reconciliation.cpp:111-261 | the candidate checks, done with the indexes and the depth-first search, give the outcome of their definition over the whole graph |
| `Validators.SlotTaken` | src/reconciliation.cpp:205-246 | looking only at the slot's bucket and the node's bucket finds an attachment conflict exactly when one exists anywhere |
| `GrantLaws.MutationUnderGrant` | src/topology_engine.cpp:131-193 | nothing happens for a caller without a writing grant where the entity is, at both ends of a new relationship, or without the authoritative grant where a node is to be removed: the request is refused and the state is as it was |
| `GrantLaws.PublicationUnderGrant` | src/reconciliation.cpp:378-384 | what is not refused was published by a writer of the scope, and a snapshot by a holder of the authoritative grant; whoever stands and only lacks the grant is refused with UnauthorizedScope and leaves no trace |
| `GrantLaws.DenialIsExplained` | src/topology_engine.cpp:131-193 | each outcome of the authority check is given exactly for its reason |
| `AuthorityLaws.GrantedExactly` | src/topology_engine.cpp:131-193 | a request is granted exactly when its caller is the present, unfenced, registered incarnation in the present epoch and some grant for the scope is strong enough |
| `AuthorityLaws.RegisterExactly` | src/topology_engine.cpp:325-373 | which registrations are accepted, what they put on file, and which boot a replacement fences |
| `AuthorityLaws.FencingSilences` | src/topology_engine.cpp:375-459 | fencing a publisher takes the currentness of exactly what it asserted, one step of its counter each, and its authority; when it cannot be made durable nodes, edges and generation stay and the boot is fenced all the same |
| `AuthorityLaws.BootFencingSilences` | src/topology_engine.cpp:461-519 | fencing a boot takes the currentness of exactly what was asserted under it, fences whoever is registered under it, and moves the generation by one exactly when some edge changed; when it cannot be made durable nodes, edges and generation stay |
| `AuthorityLaws.EpochSilences` | src/topology_engine.cpp:547-603 | a new epoch leaves no one registered; exactly what rests on a publisher's word loses its currentness, or nothing when that is not durable |
| `AuthorityLaws.LastEpochStays` | src/topology_engine.cpp:547-560 | an epoch that cannot advance, a boot without a name and a publisher without a name leave everything as it is |
| `AuthorityLaws.DefineDomainExactly` | src/topology_engine.cpp:220-278 | exactly which scope declarations are accepted, and that accepting one changes nothing else |
| `AuthorityLaws.DefineRuleExactly` | src/topology_engine.cpp:280-298 | exactly which crossing rules are accepted, and that accepting one changes nothing else |
| `EffectLaws.UpdateEvidenceTakesEffect` | src/topology_mutations.cpp:605-626 | an update of evidence commits exactly when it may be made and is not already so; then the edge has the requested evidence, lifecycle and metadata, on the caller's word if it is made current, nothing else has changed, and the same request is Idempotent |
| `EffectLaws.RevalidateTakesEffect` | src/topology_mutations.cpp:628-643 | a revalidation commits exactly when the edge is alive, its endpoints stand where the registry has them and as it is bound, and it is not already current on that evidence; then it is, and the same request is Idempotent |
| `EffectLaws.LapsedComesBack` | src/topology_mutations.cpp:628-643 | whatever has to be revalidated becomes current again for any writer of its scope as long as its bindings hold |
| `EffectLaws.SupersedeTakesEffect` | src/topology_mutations.cpp:645-758 | a supersession commits exactly when the edge is not retired nor already so superseded and the replacement is another, current edge; then only its lifecycle, successor and counter have changed, and the same request is Idempotent |
| `EffectLaws.RetireTakesEffect` | src/topology_mutations.cpp:760-842 | a retirement commits exactly when the edge is not retired; then only its lifecycle and counter have changed, and the same request is Idempotent |
| `NodeEffects.AddNodeTakesEffect` | src/topology_engine.cpp:659-927 | adding a node commits exactly when the request is in order, the registry has the entity in service, and identifier and entity belong together or are free; then the node says what was asked for, and when its entity moved on exactly its live edges are rebound and have to be revalidated |
| `NodeEffects.AddNodeAgain` | src/topology_engine.cpp:659-927 | a committed addition of a node is Idempotent from then on |
| `NodeEffects.RemoveNodeTakesEffect` | src/topology_engine.cpp:929-1042 | removing a node commits exactly when the caller may replace its scope and nothing touches it, or all that does is to go too; then exactly that is gone, and the node cannot be found again |
| `NodeEffects.ReplaceTakesEffect` | src/topology_mutations.cpp:1071-1273 | a replacement commits exactly when the node may be bound anew and is not newer already; then it stands for the successor or the named incarnation, and exactly its live edges are rebound at that end and have to be revalidated |
| `NodeEffects.ReplaceAgain` | src/topology_mutations.cpp:1168-1181 | a repeated replacement is Idempotent exactly when it names an incarnation; with a successor, or with no incarnation, it is carried out every time |
| `LinkEffects.ValidExactlyWhenFits` | src/reconciliation.cpp:111-261 | a candidate is valid exactly when it joins two different nodes in use of permitted classes on a permitted layer, rests on another and if logical on a physical relationship, is alone where it claims to be, and closes no cycle |
| `LinkEffects.AddRelationshipTakesEffect` | src/topology_mutations.cpp:110-411 | adding a relationship commits exactly when its caller may write at both ends, its identity is free, it fits and is not already so; then the edge it intends stands, bound to the present incarnations of its ends and found by key and name, and nothing else has changed |
| `LinkEffects.NothingIntended` | src/topology_mutations.cpp:130-173 | a request whose endpoints are missing, or whose layer or scope cannot be settled, is refused and changes nothing |
| `LinkEffects.AddRelationshipAgain` | src/topology_mutations.cpp:282-315 | a committed addition of a relationship is Idempotent from then on |
| `LinkEffects.MoveTakesEffect` | src/topology_mutations.cpp:844-1069 | a move commits exactly when the attachment is current, stays in its scope and fits where it goes under a free identifier; then it is superseded by the new one; an edge that carries an attachment never moves, because it is itself the one current exclusive attachment of its node |
| `LinkEffects.MoveAgain` | src/topology_mutations.cpp:907-916 | nothing moves twice: the same request is refused because its edge is not current any more |
| `LinkEffects.AskedAgain` | src/topology_mutations.cpp:110-1273 | whatever has been committed is Idempotent when asked again without naming a generation; a removed node is not found, a moved attachment is not moved again, and only a replacement that names no incarnation is carried out every time |
| `RefusalLaws.EvidenceRefusals` | src/topology_mutations.cpp:413-541 | a writer that changes evidence is told that the edge is missing, that it builds on another generation, that the edge is retired or superseded, or that its endpoints have moved on |
| `RefusalLaws.SupersedeRefusals` | src/topology_mutations.cpp:645-726 | what a writer that supersedes is told about the edge, the generation and the replacement |
| `RefusalLaws.RetireRefusals` | src/topology_mutations.cpp:760-806 | what a writer that retires is told about the edge and the generation |
| `RefusalLaws.AddNodeRefusals` | src/topology_engine.cpp:659-800 | what a writer that adds a node is told about the scope, the generation, the registry record and the identity |
| `RefusalLaws.RemoveNodeRefusals` | src/topology_engine.cpp:929-1000 | what the holder of the authoritative grant is told that removes a node |
| `RefusalLaws.ReplaceRefusals` | src/topology_mutations.cpp:1071-1166 | what a writer that binds a node anew is told about the node, the generation and the successor |
| `RefusalLaws.MisfitsAreExplained` | src/reconciliation.cpp:111-261 | each outcome of the candidate checks is given for its reason |
| `RefusalLaws.AddRelationshipRefusals` | src/topology_mutations.cpp:190-330 | what a writer that adds a relationship is told about the generation, the identity, a dead edge and a misfit |
| `RefusalLaws.MoveRefusals` | src/topology_mutations.cpp:844-965 | what a writer that moves an attachment is told about the edge, the generation and the target |
| `ValidityLaws.ValidExactlyWhenConsistent` | src/validation.cpp:46-282 | the checks node by node and edge by edge come to ten properties of the whole graph: classes, registry, relations, endpoints, scopes, bindings, supports, keys, slots and hierarchies |
| `ValidityLaws.CommitsAreConsistent` | src/reconciliation.cpp:1078-1101 | whatever a publication says, what it commits is consistent in all of these respects |
| `AcceptanceLaws.NodeEntryAccepted` | src/reconciliation.cpp:442-642 | a node entry is accepted exactly when it is in scope, mentioned once, and, if present, reports once an entity in service whose node is its own or free |
| `AcceptanceLaws.EdgeEntryAccepted` | src/reconciliation.cpp:652-919 | an edge entry is accepted exactly when it is in scope, mentioned once, and, if present, describes a relationship that fits, whose identity is its own or free, and which in a snapshot is not older than what is there |
| `AcceptanceLaws.NodeRejectionsExplained` | src/reconciliation.cpp:442-642 | a node entry is rejected with its reason: scope, class, repetition, registry record, identity or limit |
| `AcceptanceLaws.EdgeRejectionsExplained` | src/reconciliation.cpp:652-919 | a relationship that may be mentioned is rejected with its reason: another edge, a taken name or identifier, the limit, a dead edge, older evidence in a snapshot, or a misfit |
| `AcceptanceLaws.PublishExactly` | src/reconciliation.cpp:308-1153 | a publication commits exactly when it may be made, is new, every entry is accepted, some difference is recorded, the result is consistent and it becomes durable; it is Idempotent exactly when it was processed before or makes no difference, and then the topology is as it was |
| `AcceptanceLaws.NoDifferenceIsOnFile` | src/reconciliation.cpp:1054-1066 | a new publication that makes no difference makes none because everything it reports is on file already |
| `AcceptanceLaws.RecordRemembers` | src/topology_engine.cpp:102-110 | the ledger holds what was processed until as many others have been as it can hold, nothing twice |
| `AcceptanceLaws.ReplayIsHarmless` | src/reconciliation.cpp:409-417 | what was processed once is Idempotent from then on, whatever it says this time |
| `ReportLaws.ReportsAreOnFile` | src/reconciliation.cpp:652-919 | after a commit every asserted entry is on file, found by its key, live, between the reported endpoints, with the reported evidence, metadata, support, slot and layer, or on newer evidence; where absence is reported no live edge is left |
| `ReportLaws.NodesAreOnFile` | src/reconciliation.cpp:442-642 | after a commit every reported node is there, current, and says what was reported, of the registry's incarnation; a new one is of the reported class and scope and in the publication's name |
| `ReportLaws.PublishSigns` | src/reconciliation.cpp:772-905 | no publication speaks in another's name: what an edge says afterwards it said before on the same word, or says on the word of this publisher, boot, epoch and publication |
| `ReportLaws.EvidenceNeverFalls` | src/reconciliation.cpp:845-870 | no publication takes a relationship back to older evidence |
| `ReportLaws.OtherScopesStay` | src/reconciliation.cpp:968-1052 | whatever is published for one scope, snapshots included, other scopes keep their nodes and edges, which change only where they are mentioned or bound anew, and what is dead stays as it is |
| `Traversal.Traverse` | src/traversal.cpp:158-254 | the bounded search lists each node once at its shortest admissible distance, over an admitted edge from a node one step closer; it is complete when not truncated, truncated exactly when more nodes qualify than fit, and then omits nothing closer than what it lists; the list is strictly by depth and then by identifier; the arcs it follows are given by the stored edges |
| `Traversal.NextIsFollowed` | src/traversal.cpp:32-95 | the filters and the choice of the next node follow exactly the arcs of the kind: up from a part to what contains or hosts it, down from there, from a logical relationship to what it rests on, or both ways |
| `Traversal.DistanceBothWays` | src/traversal.cpp:55-95 | a node is an ancestor of another so many levels up exactly when that one is its descendant as many levels down; connections and attachments are so from either side |
| `Traversal.Search` | src/traversal.cpp:184-241 | the queue, visited set and limits compute that answer before sorting |
| `Traversal.Expand` | src/traversal.cpp:197-236 | one expansion follows every admitted edge at the node until the list is full, and says truncated only when another unseen node was there |
| `Indexes.FilesUnique` | src/graph_state.hpp:142-163 | the pairs an index files determine it, because no bucket is ever empty |
| `Indexes.IntoFiles` | src/graph_state.hpp:142-147 | filing a pair gives the index of one more pair |
| `Indexes.OutOfFiles` | src/graph_state.hpp:149-163 | withdrawing a pair gives the index of one pair fewer, without an empty bucket left over |
| `Indexes.LeaveSecondaryEnrolls` | src/graph_state.cpp:324-329 | leaving a secondary scope keeps the scope index right exactly when something else keeps that scope's entry alive |
| `GraphIndex.IndexUnique` | src/graph_state.cpp:429-496 | all twelve indexes are determined by nodes, edges and declared scopes |
| `GraphIndex.WithEdgeIndexed` | src/graph_state.cpp:262-285 | indexing an edge whose key and name are free makes the indexes a rebuild would make |
| `GraphIndex.WithoutEdgeIndexed` | src/graph_state.cpp:287-336 | unindexing an edge leaves the indexes a rebuild would make exactly when it does not strand an undeclared secondary scope |
| `GraphIndex.WithNodeIndexed` | src/graph_state.cpp:242-245 | indexing a node with a free entity makes the indexes a rebuild would make |
| `GraphIndex.WithoutNodeIndexed` | src/graph_state.cpp:247-260 | unindexing a node leaves the indexes a rebuild would make |
| `GraphIndex.RebuiltIsIndexed` | src/graph_state.cpp:404-427 | where no entity, key or name is held twice, what a rebuild makes does not depend on the order it visits things in |
| `GraphIndex.UndoneInsertionKeepsNames` | src/graph_state.cpp:287-336 | filing an edge and withdrawing it again leaves the name index right if and only if no other edge holds the name |
| `GraphIndex.IncidentLookup` | src/graph_state.cpp:570-573 | the incident bucket of a node is exactly the edges that touch it |
| `GraphStates.GraphState.IndexEdge` | src/graph_state.cpp:262-285 | the statements update the twelve indexes as specified |
| `GraphStates.GraphState.UnindexEdge` | src/graph_state.cpp:287-336 | the statements withdraw the edge from the twelve indexes as specified |
| `GraphStates.GraphState.InsertNode` | src/graph_state.cpp:342-349 | inserts a node unless its id is taken, with exactly the index writes of filing it, on any state; where identities and entities stay unique every index but for what the two edge lookups miss, and where nothing is missed those too, stays what a rebuild would make |
| `GraphStates.GraphState.EraseNode` | src/graph_state.cpp:351-360 | erases a node with exactly the index writes of withdrawing it; the indexes stay as right as they were |
| `GraphStates.GraphState.UpdateNode` | src/graph_state.cpp:362-371 | replaces a node, withdrawing the old and filing the new one, on any state; with the same two levels of index correctness as insertion |
| `GraphStates.GraphState.MutateNode` | src/graph_state.hpp:165-177 | applies an edit to the stored node, on any state, with the same two levels of index correctness as insertion |
| `GraphStates.GraphState.InsertEdge` | src/graph_state.cpp:373-380 | inserts an edge unless its id is taken; it takes its key and name over in the lookups, whoever held them; the other indexes stay what a rebuild would make, and where no key and no name is held twice the lookups too |
| `GraphStates.GraphState.EraseEdge` | src/graph_state.cpp:382-391 | erases an edge; it gives up its key and name in the lookups unless another edge has taken them over; the indexes stay as right as they were |
| `GraphStates.GraphState.UpdateEdge` | src/graph_state.cpp:393-402 | replaces an edge, on any state: the old one is withdrawn and the new one filed, with the same two levels of index correctness as insertion |
| `GraphStates.GraphState.MutateEdge` | src/graph_state.hpp:179-191 | applies an edit to the stored edge, on any state, with the same two levels of index correctness as insertion |
| `GraphStates.GraphState.RebuildIndexes` | src/graph_state.cpp:404-427 | building from scratch in any order gives, for every graph, indexes whose buckets are exact and whose lookups find some holder; where nothing is held twice it is the one index of the graph |
| `GraphStates.GraphState.VerifyIndexes` | src/graph_state.cpp:429-496 | a yes of the self-check means the maintained indexes are what a rebuild makes; where nothing is held twice the answer is yes exactly when they are |
| `GraphStates.GraphState.NodeByEntity` | src/graph_state.cpp:508-511 | the entity index finds exactly the node bound to the entity |
| `GraphStates.GraphState.EdgeByKey` | src/graph_state.cpp:513-516 | on every state an operation may have left, the key index finds an edge with the key, the one the state's lookup names, or none |
| `GraphStates.GraphState.EdgeByRelationship` | src/graph_state.cpp:518-521 | on every state an operation may have left, the name index finds an edge with the name, the one the state's lookup names, or none |
| `GraphStates.ValidWhenComplete` | src/graph_state.cpp:429-496 | the maintained indexes are all that a rebuild makes if and only if they are but for what the two edge lookups miss, and every edge is found by its key and its name |
| `GraphStates.GraphState.Declare` | src/topology_engine.cpp:262-278 | declaring a scope gives it an index entry and keeps the indexes as right as they were |
| `StateTxns.NoteUndoes` | src/graph_state.cpp:666-717 | undoing a change noted with the stored value, or an insertion of a free id, gives back nodes and edges; it gives back what the lookups found if and only if what was removed or replaced was found and what was newly filed under was free |
| `StateTxns.ChangesLeadBack` | src/graph_state.cpp:729-764 | any number of noted changes, however often they touch the same entry, lead back to the nodes and edges of the start; if none takes a lookup over, to its lookups as well |
| `StateTxns.NoteOfTakenIdErases` | src/graph_state.cpp:736-753 | undoing an insertion restores nodes and edges if and only if the id was free |
| `StateTxns.NoteOfOtherValueIsInexact` | src/graph_state.cpp:741-745 | undoing an update restores the graph if and only if the noted value was the stored one |
| `StateTxns.UnwoundRestores` | src/graph_state.cpp:729-764 | undoing a log that leads back to a graph restores its nodes and edges, and the indexes describe the result |
| `BatchUndo.RewritesUnwind` | src/graph_state.cpp:729-764 | undoing any number of edge rewrites made in ascending order gives the edges back and files each of them back, newest first |
| `BatchUndo.ErasuresUnwind` | src/graph_state.cpp:729-764 | undoing any number of erasures gives the edges back and files each of them back, newest first |
| `StateTxns.StateTxn.Rollback` | src/graph_state.cpp:729-764 | on any state and any log, rollback is the reverse replay of the log on graph and indexes; after a commit it does nothing |
| `Authority.GrantFor` | src/topology_engine.cpp:40-48 | the strongest mode granted for the scope, and one that was granted |
| `AuthorityLaws.NestingStaysAcyclic` | src/topology_engine.cpp:257-273 | declaring a scope keeps the nesting of scopes acyclic |
| `AuthorityLaws.NormalizationKeepsPermission` | src/types.cpp:401-404 | storing an undirected relationship the other way round never makes its endpoint classes impermissible, and no undirected relation has to stay acyclic |
| `Sessions.DelegatedMode` | src/runtime/coordinator.cpp:120-138 | the loop finds the strongest mode the policy allows, and nothing for a scope it does not define |
| `Sessions.Delegate` | src/runtime/coordinator.cpp:383-393 | the grants a session is registered with |
| `Sessions.DelegationIsExact` | src/runtime/coordinator.cpp:383-393 | in every scope a session gets exactly the weaker of what it asked for and what the policy allows |
| `Sessions.AuthorityWithinPolicy` | src/topology_engine.cpp:131-193 | in every reachable state a granted request is within the delegation policy |
| `Sessions.IncarnationKeepsAuthority` | src/topology_engine.cpp:461-519 | whatever happens that is not aimed at an incarnation, including the end of every other session, leaves its authority as it was |
| `Sessions.EndingOlderSessionSparesNewer` | src/runtime/coordinator.cpp:619-630 | ending an older incarnation's session, with anything harmless in between, leaves the newer boot of the same publisher authorised and the older one fenced |
| `StampLaws.FencedBootsNeverAct` | src/topology_engine.cpp:146-150 | once a boot is fenced, no mutation or publication it asks for ever changes the state, in any run |
| `StampLaws.PastEpochsNeverAct` | src/topology_engine.cpp:140-145 | once the epoch has moved on, no mutation or publication asked in an earlier epoch ever changes the state, in any run |
| `Runs.RegistrationNeverStale` | src/topology_engine.cpp:164-169 | in no reachable state, of any run at all, can a request be refused because its registration belongs to another epoch |
| `MutationLaws.MutationLawful` | src/topology_mutations.cpp:110-1273 | every mutation, whatever the lookups find, keeps the graph shaped (ids, entities, endpoints, scopes, orientation, acyclic relation classes), revives no dead edge, and changes nothing but nodes, edges, lookups and generation; keys stay unique if and only if no committed move or addition files one that another edge, found or not, or the moved edge has, and names likewise |
| `MutationLaws.MoveSoundExactlyWhenClean` | src/topology_mutations.cpp:844-1069 | a committed move keeps the graph sound if and only if no edge, found or not, stands for the relationship with the target or holds the derived name |
| `MutationLaws.AddSoundExactlyWhenNothingMissed` | src/topology_mutations.cpp:232-267 | a committed addition keeps a sound graph sound if and only if no other edge stands for the relationship or goes by the name, and whatever does so is missed by the key or the name lookup |
| `MutationLaws.MoveIsAtomicExactlyWhenIdFree` | src/topology_mutations.cpp:1031-1040 | a move that does not commit leaves nodes and edges alone if and only if it does not pass its guard, as the stored lookups decide it, with the identifier of its new edge taken; in that case it is always refused |
| `MutationLaws.AddIsAtomicExactlyWhenListed` | src/topology_mutations.cpp:368-376 | an addition that does not commit leaves nodes and edges alone if and only if it does not erase an edge that has its identifier and its key and that the key lookup misses; in that case it is always refused |
| `MutationLaws.ReplaceIsAtomicExactlyWhenUnbound` | src/topology_mutations.cpp:1193-1200 | an endpoint replacement that does not commit leaves nodes and edges alone if and only if it fails its guard, finds the node already newer, could be written, or would bind nothing new |
| `Engines.Engine.Finalize` | src/topology_mutations.cpp:30-45 | the tail of a mutation advances the generation by one, or replays the log backwards on graph and indexes, whatever the log holds |
| `Engines.Engine.Settle` | src/topology_mutations.cpp:30-45 | when the log leads back to a graph, a failed mutation restores its nodes and edges, and the lookups are what the reverse replay makes of them |
| `Engines.Engine.AddNode` | src/topology_engine.cpp:659-927 | the indexed, logged code makes exactly the specified step, from every state an operation may have left |
| `Engines.Engine.RemoveNode` | src/topology_engine.cpp:929-1042 | cascaded removal through the incident index makes exactly the specified step |
| `Engines.Engine.AddRelationship` | src/topology_mutations.cpp:110-411 | scope, authority, identity, candidate checks and filing make exactly the specified step, whatever the lookups miss, including the edge erased when a missed one has the identifier and the key |
| `Engines.Engine.ApplyEvidence` | src/topology_mutations.cpp:413-603 | the evidence change makes exactly the specified step |
| `Engines.Engine.UpdateEvidence` | src/topology_mutations.cpp:605-626 | the evidence update makes exactly the specified step |
| `Engines.Engine.Supersede` | src/topology_mutations.cpp:645-758 | superseding makes exactly the specified step |
| `Engines.Engine.Retire` | src/topology_mutations.cpp:760-842 | retiring makes exactly the specified step |
| `Engines.Engine.MoveAttachment` | src/topology_mutations.cpp:844-1069 | every move makes exactly the specified step, whatever the lookups miss, including the edge erased when its new id is taken and the key or name lost when it is undone |
| `Engines.Engine.ReplaceEndpoint` | src/topology_mutations.cpp:1071-1273 | the replacement makes exactly the specified step, including the binding left behind by a failed write |
| `Engines.Engine.Perform` | src/topology_mutations.cpp:110-1273 | any single-entity request makes exactly the specified step on the state the engine stands for, lookups included, from every state an operation may have left |
| `Engines.Engine.RegisterPublisher` | src/topology_engine.cpp:325-373 | registration makes exactly the specified step |
| `Engines.Engine.FenceWorker` | src/topology_engine.cpp:375-459 | fencing a publisher demotes its current edges in one durable step, or leaves nodes and edges as they were |
| `Engines.Engine.FenceIncarnation` | src/topology_engine.cpp:461-519 | fencing a boot marks its registrations and demotes its current edges, or leaves nodes and edges as they were |
| `Engines.Engine.AdvanceCoordinatorEpoch` | src/topology_engine.cpp:547-603 | a new epoch forgets registrations and demotes what publishers asserted |
| `Engines.Engine.DefineScope` | src/topology_engine.cpp:220-278 | declaring a scope makes exactly the specified step, with the bounded parent walk |
| `Engines.Engine.DefineCrossing` | src/topology_engine.cpp:280-298 | declaring a crossing rule makes exactly the specified step |
| `Ledgers.AttemptLedger.RecordAttempt` | src/topology_engine.cpp:102-110 | the queue and the set remember the newest publications, each once, up to the capacity |
| `Engines.Engine.PublishAll` | src/reconciliation.cpp:308-1153 | publishing on a copied, indexed candidate makes exactly the specified step, lookups included, whatever names are claimed and whatever the lookups miss |
| `Reconcilers.Reconciler.Fold` | src/reconciliation.cpp:443-1052 | the loops over nodes, edges, absences and replacement compute the specified draft, or the same rejection, whatever names are claimed and whatever the lookups miss |
| `Reconcilers.Reconciler.AcceptNode` | src/reconciliation.cpp:455-644 | one observed node is accepted, refreshed or rejected as specified |
| `Reconcilers.Reconciler.AcceptEdge` | src/reconciliation.cpp:660-920 | one observed relationship is filed, restated, dropped or rejected as specified, under any name |
| `Reconcilers.Reconciler.AcceptPresentEdge` | src/reconciliation.cpp:730-903 | a present relationship is filed, restated or left alone as specified, and one whose identifier belongs to an edge that its key lookup misses is passed over in silence |
| `Reconcilers.Reconciler.AcceptAbsence` | src/reconciliation.cpp:922-966 | a declared absence drops the live edge of the scope that the name index finds, in every mode, whoever else holds the name |
| `Reconcilers.Reconciler.Replace` | src/reconciliation.cpp:968-1052 | snapshot replacement erases what was not mentioned and retires nodes that other scopes still use |
| `PublishLaws.PublishAllOrNothing` | src/reconciliation.cpp:1054-1153 | on any state, whatever keeps a publication from committing leaves the graph as it was; a commit is durable, valid against the registry, moves the generation by exactly one and records the publication |
| `PublishLaws.PublishLawful` | src/reconciliation.cpp:443-1052 | every publication keeps the graph shaped and revives no dead edge, and a commit leaves no relationship twice |
| `FrameLaws.IncrementalFrame` | src/reconciliation.cpp:602-640 | an incremental or partial publication erases nothing and alters only nodes it mentions, and edges it mentions, declares absent, or whose endpoint's entity generation it moved |
| `SnapshotLaws.SnapshotIsExact` | src/reconciliation.cpp:968-1052 | where the mentioned keys and the names declared absent are found, the live edges of the scope after a committed snapshot are exactly the present entries not declared absent, all current, if and only if no two present entries are stored under one name that is declared absent |
| `SnapshotLaws.SnapshotNodesExact` | src/reconciliation.cpp:1012-1052 | whatever the lookups find, every unmentioned node a committed snapshot leaves in its scope is retired and still in use |
| `SnapshotLaws.AbsencesAreASet` | src/reconciliation.cpp:922-966 | on every draft, applying declared absences one after the other, each to what the name index finds, is applying them as a set |
| `PermutationLaws.PublishIgnoresOrder` | src/reconciliation.cpp:443-451 | permuting the node, edge and absence lists changes neither whether a publication commits nor the state it leaves, lookups included, whatever names are claimed |
| `PermutationLaws.RenderInjective` | src/graph_state.cpp:32-43 | rendered edge keys are equal only for equal keys, so the sets of rendered keys are sets of keys |
| `RepublishLaws.RepublicationIsIdempotent` | src/reconciliation.cpp:845-903 | where the mentioned keys are found, the same content under a fresh publication id is idempotent and leaves the graph identical if and only if every logical entry skipped as stale still rests on a physical relationship; otherwise it is refused as a conflict |
| `NamesLaws.PublishSoundExactlyWhenNamesSettle` | src/reconciliation.cpp:765-770 | a committed publication, in every mode and whatever the lookups find, keeps a sound graph sound if and only if no relationship it files claims a name whose holder stays: in a snapshot, a holder that is dead, in another scope or spared by an entry, and not declared absent |
| `Runs.StepSettles` | src/topology_engine.cpp:220-603 | every step of any kind, whatever the lookups find, keeps the graph shaped and registrations in the current epoch, and revives no dead edge; relationships stay unique if and only if no committed move or addition files one that an edge, found or not, already stands for |
| `Runs.StepSoundExactlyWhen` | src/topology_engine.cpp:220-603 | from a sound state, whatever its lookups find, a step of any kind leads to a sound state if and only if it commits no key and no name that some edge, found or not, already has |
| `Runs.RunsStayCoherent` | src/reconciliation.cpp:249-256 | in every state of every run, without any condition on the steps or on what the lookups find, the live edges of each acyclic relation form no cycle, endpoints exist, ids and entities are unique, scopes are declared, undirected edges are normalized, and no registration is of another epoch |
| `Runs.RunsStayStructured` | src/topology_mutations.cpp:844-1069 | in every run in which no committed move or addition files a relationship that an edge already stands for, no relationship is ever stored twice |
| `Runs.RunsStayHealthy` | src/reconciliation.cpp:249-256 | in every run in which no step commits a key or a name that some edge already has, every state is sound |
| `Runs.FreshIsHealthy` | src/topology_engine.cpp:120-125 | the empty runtime a process starts with is such a state, and everything in it is found |
| `Runs.LifecyclesOnlyAge` | src/topology_mutations.cpp:462-479 | along every run, without any condition on the steps or on what the lookups find, while an edge stays, Retired is absorbing and Superseded can only stay or become Retired |
| `LookupLaws.MutationKeepsLookups` | src/topology_mutations.cpp:844-1069 | from a state in which every edge is found by its key and its name, a mutation leads to another, unless it is a move that takes a name or a key over: one that commits, from any edge, or one that is undone, from any edge but the moved one |
| `LookupLaws.PublishKeepsLookups` | src/reconciliation.cpp:765-966 | from such a state a committed publication leads to another if and only if no relationship it files claims the name of an edge that its entries leave in place |
| `LookupLaws.StepKeepsLookups` | src/graph_state.cpp:262-336 | from such a state a step of any kind leads to another if and only if it takes nothing over |
| `LookupLaws.RunsStayComplete` | src/graph_state.cpp:429-496 | over any run whose steps take nothing over, every edge of every state is found by its key and by its name, and no key and no name is used twice |
| `LookupLaws.CompleteErasesNothing` | src/topology_mutations.cpp:368-376 | where every edge is found, no addition erases one |
| `BindingLaws.RunsKeepBindings` | src/topology_mutations.cpp:1204-1240 | in every state of every run that no failed endpoint replacement precedes, every current relationship carries the entity generations its endpoints have now |
| `StampLaws.StampDeterminesTopology` | src/topology_mutations.cpp:30-45 | any two states of a run with equal generation and epoch have equal nodes and edges, whatever the lookups find, unless one of the three faulty rollbacks happened between them |
| `StampLaws.ResidueBreaksStamp` | src/topology_mutations.cpp:368-376 | a step is one of the three faulty rollbacks, each spelled by its guard, if and only if it changes nodes or edges without changing generation or epoch |
| `StampLaws.RunsGoForward` | src/topology_engine.cpp:547-558 | generation, epoch and snapshot ordinal never fall, boots stay fenced, scopes stay declared |
| `Snapshots.History.Take` | src/snapshot.cpp:106-160 | under any interleaving, the retry loop returns exactly the runtime as of the exclusive section that finds its shared section's stamp, or of the fallback; that section is the numbering step of the run, whose ordinal the snapshot carries |
| `Snapshots.History.Remember` | src/snapshot.cpp:133-137 | the history keeps the newest snapshots up to its capacity |
| `Snapshots.OrdinalsIncrease` | src/snapshot.cpp:127-131 | snapshot ordinals strictly increase while the counter can advance |
| `Snapshots.ScopesDivide` | src/graph_state.cpp:523-568 | the snapshots of the scopes divide the nodes among them, hold an edge in each scope it is kept in and no other, and filters leave exactly the edges of the relation or layer |
| `Snapshots.ScopeIsClosed` | src/graph_state.cpp:523-568 | in a consistent graph the snapshot of a scope holds both endpoints of every edge that stays in it |
| `Snapshots.VerdictsExplained` | src/snapshot.cpp:167-202 | whatever snapshot is checked, each verdict is given exactly for its reason, epoch before content before generation |
| `Snapshots.SnapshotCurrency` | src/snapshot.cpp:167-202 | a snapshot is reported current exactly while the runtime carries its stamp, then shows what is there, and is never reported to be from the future |
| `Codec.NumberRoundTrip` | src/codec.cpp:18-35 | a number that fits its width is read back from its little-endian bytes |
| `Codec.BytesRoundTrip` | src/codec.cpp:81-101 | every byte string is the encoding of the number it stands for |
| `Codec.RecordWriter.PutNumber` | src/codec.cpp:25-35 | the shifting loop appends exactly the little-endian bytes |
| `Codec.RecordWriter.PutBlob` | src/codec.cpp:37-40 | appends the length and the bytes |
| `Codec.RecordReader.TakeNumber` | src/codec.cpp:81-101 | reads exactly the number there, and succeeds exactly when enough bytes are left and nothing failed before |
| `Codec.RecordReader.TakeBlob` | src/codec.cpp:105-120 | reads exactly the bytes there, and succeeds exactly when the length is within the limit and all of it is there |
| `Frames.EncodeFrame` | src/protocol.cpp:129-142 | the written frame is header, checksum and payload in wire order |
| `Frames.DecodeFrame` | src/protocol.cpp:143-193 | the reader-based decoder computes the frame function on every buffer |
| `Frames.DecodesItself` | src/protocol.cpp:143-193 | a frame at the front of a buffer is decoded as itself, whatever follows |
| `Frames.PrefixIsIncomplete` | src/protocol.cpp:143-193 | a strict prefix of a valid frame is always incomplete, never malformed |
| `Frames.DecodedWasEncoded` | src/protocol.cpp:129-193 | what is decoded is the one encoding of a valid frame |
| `Frames.KnownKinds` | include/fabric_topology/protocol.hpp:30-45 | a message code is known exactly when it is the code of one of the eleven kinds |
| `Frames.DamageIsDetected` | src/protocol.cpp:143-193 | a frame that arrives with any one byte of its payload changed is recognised as malformed, whatever follows it |
| `Frames.FrameTransport.Receive` | src/runtime/frame_transport.cpp:343-386 | the next frame comes out whole and in order however the stream is cut; the overflow branch is never taken when the payload limit is within the frame limit |
| `Frames.ReceiveAll` | src/runtime/frame_transport.cpp:343-386 | receiving until the peer closes yields exactly the frames that were sent, in order |
| `Records.TakeAllPut` | src/persistence.cpp:44-77 | a record of fields that fit is read back, and what follows is left alone |
| `Records.TakeCountedPut` | src/persistence.cpp:379-394 | a counted list is read back when its count is within the limit |
| `Image.MetadataRoundTrip` | src/persistence.cpp:79-104 | metadata in key order survives encoding and the decoder's insertions |
| `ImageRecords.NodeRoundTrip` | src/persistence.cpp:106-163 | a node record is read back |
| `ImageRecords.EdgeRoundTrip` | src/persistence.cpp:165-269 | an edge record is read back |
| `Recovery.ImageRoundTrip` | src/persistence.cpp:290-506 | decoding an encoded image returns it exactly if and only if its ids, entities and names are non-empty, no node id, edge id, scope id or relationship name occurs twice, the endpoints of every edge are in it and so are the scopes of every rule; it is refused otherwise |
| `Recovery.SaveThenLoad` | src/persistence.cpp:290-506 | a shaped state within limits, its records in any order, can be loaded again if and only if no relationship name is used twice; then generation, counters, nodes, edges, scopes, boots and, up to order, rules are the same, everything is found by key and name if and only if no key is held twice, and the lookups are the same where everything was found |
| `Recovery.ReachableSavesAndLoads` | src/persistence.cpp:290-506 | every state that any run reaches from the empty runtime, with node entries under non-empty ids, is given back by its saved image in this sense if and only if no relationship name is used twice in it |
| `NamingLaws.RunsStayNamed` | src/topology_engine.cpp:220-298 | in every state of every run whose node entries have identifiers, no node, edge, name or scope is empty, and crossing rules are about declared scopes |
| `NamingLaws.RunsStayNested` | src/topology_engine.cpp:257-273 | in every state of every run the nesting of scopes has no cycle |
| `Recovery.RecoveryIsConservative` | src/persistence.cpp:762-846 | recovery of any shaped state keeps generation, structure and fenced boots, leaves no publisher-asserted edge current, ages lifecycles only, forgets registrations and raises the epoch above the stored one unless saturated; every edge is found afterwards if and only if no key and no name is held twice, whatever had been lost |
| `Recovery.RestartIsConservative` | src/persistence.cpp:683-861 | a restart from a saved image recovers conservatively, with every edge found again by its key and its name, if and only if no name is used twice and the graph is still valid against the registry, and is refused otherwise |
| `RecoveryLaws.LoadedIsRestarted` | src/persistence.cpp:683-861 | after a restart from a saved image every edge is back as it was but for the currentness of what rests on a publisher's word, and every node the registry vouches for is back as it was |
| `RecoveryLaws.CurrentnessReturns` | src/persistence.cpp:788-843 | what was current before a restart on a publisher's word, and still is as far as the registry goes, comes back to be revalidated, and is current again once a publisher of its scope has registered and revalidated it |
| `Recovery.LifecyclesAgeAcrossRestart` | src/persistence.cpp:797-818 | the lifecycle law holds through any run, a restart from its last state, and any other run |
| `Recovery.RecoverEdges` | src/persistence.cpp:788-820 | the loop over recovered edges demotes in place and files each edge anew, keeping the indexes right |
| `Recovery.RecoverNodes` | src/persistence.cpp:821-843 | the loop over recovered nodes demotes in place and keeps the indexes right |
| `Digests.TableStep` | src/digest.cpp:152-162 | one table lookup does what eight shifts of the register do |
| `Digests.MakeTable` | src/digest.cpp:152-162 | entry i of the table is i shifted eight times |
| `Digests.Crc32` | src/digest.cpp:151-172 | the byte-at-a-time table form equals the bit-serial reflected checksum of section 3.2.9 of IEEE 802.3 on every input |
| `Digests.CheckValue` | src/digest.cpp:151-172 | the checksum of the nine digits is the published check value of CRC-32 |
| `Digests.OneByteTells` | src/digest.cpp:151-172 | two messages that differ in one byte never have the same checksum |
| `Digests.Sha256` | src/digest.cpp:98-127 | for every message under 2^61 bytes the loop compresses exactly the blocks of the padded message of section 5.1.1 of FIPS 180-4, including the two-block tail |
| `Witnesses.StaleRoster` | src/graph_state.cpp:324-329 | any edge into an undeclared scope of its own leaves that scope's empty index entry behind when withdrawn |
| `Witnesses.FailedReplacementLeavesResidue` | src/topology_mutations.cpp:1193-1200 | a concrete replacement that is refused and still rebinds its node |
| `Witnesses.MoveOntoTakenIdErases` | src/topology_mutations.cpp:1031-1040 | a concrete move that is refused and still erases an edge |
| `Witnesses.MoveToOwnTargetIsUnsound` | src/topology_mutations.cpp:844-1069 | a concrete move that commits and leaves two edges for one relationship |
| `Witnesses.RefusedMoveLosesName` | src/topology_mutations.cpp:1031-1069 | a concrete move that cannot be made durable, is refused, leaves nodes and edges as they were and loses another edge to the name lookup |
| `Witnesses.LostNameIsUsedTwice` | src/topology_mutations.cpp:257-267 | two concrete steps: the refused move, which leaves the state sound, and an addition that commits the lost name a second time |
| `PublicationWitnesses.PublicationDuplicatesName` | src/reconciliation.cpp:765-770 | a concrete publication that commits and leaves two relationships with one name |
| `PublicationWitnesses.SnapshotDuplicatesName` | src/reconciliation.cpp:968-1052 | a concrete authoritative snapshot that commits and leaves two relationships with one name |
| `PublicationWitnesses.LostKeyErasesEdge` | src/topology_mutations.cpp:368-376 | three concrete steps from a healthy state: an attachment is moved to its own target, a snapshot erases the edge that took its key over, and an addition under the old identifier is refused and erases the old edge under an unchanged generation and epoch |
| `PublicationWitnesses.SnapshotDropsEntry` | src/reconciliation.cpp:772-835 | a concrete snapshot that reports a relationship whose key is lost as present, commits, and leaves no live edge for it |
| `PublicationWitnesses.SnapshotMissesAbsence` | src/reconciliation.cpp:922-966 | a concrete snapshot that declares a lost name absent, commits, and leaves its holder live |
| `PublicationWitnesses.AbsenceStrikesNewcomer` | src/reconciliation.cpp:922-966 | a concrete snapshot, with everything found, that declares a name absent, reports its holder under an alias and files a new relationship under the name: the new one is struck and the old one stays live |
| `PublicationWitnesses.StaleEntryIsNotRepeated` | src/reconciliation.cpp:845-903 | a concrete publication that commits, and is refused when the same content is published again |

## Assumptions the theorems name

- What every run keeps needs no assumption on its steps or on what the lookups find (`RunsStayCoherent`,
  `LifecyclesOnlyAge`, `RegistrationNeverStale`, `RunsStayNested`). `KeepsKeys`, `KeepsNames` and `KeepsLookups` appear
  only where keys and names are said to stay unique, or edges to be found, and constrain only moves, additions and
  publications.
- `SecondariesDeclared` is the guard of the stranded index entry; sound graphs satisfy it.
- `KeysFound` and `AbsencesFound`: what stands for a relationship that a publication mentions is found by its key, and
  what goes by a name it declares absent is found by it. `SnapshotIsExact` names both and `RepublicationIsIdempotent`
  the first; a graph in which everything is found satisfies both, and a concrete run fails each.
- `EntriesNamed`: node entries have an identifier, their own or a derived one. Only what is said about empty names, and
  with it saving and loading, depends on it; a derived identifier is a hash and never empty.
- `RepublicationIsIdempotent` moreover needs what the reconciler needs to accept the content twice: no
  exclusive-attachment flags, no entry both present and declared absent, node classes as stored and, for a snapshot, no
  unmentioned node left in the scope.
- `PublishIgnoresOrder` takes the sorted orders the reconciler works in and identifiers without the separator of
  rendered keys, which valid identifiers never contain.
- Derived identifiers are arbitrary functions of entity or edge key, the SHA-256 compression function is an arbitrary
  function of state and block, and a snapshot's content digest is an arbitrary function of the scoped content.

## Left out

- Sockets, polling, threads, process handling and file writes: a durable write succeeds or fails, a socket delivers
  any chunks, and every public operation is one atomic step, as the authority and state locks make it.
- The persistence container around the state image (magic, length, checksum, digest): it only refuses files, and the
  checks it makes are equalities with recomputed values.
- Status codes and texts: outcomes are kept, but refusals for malformed text, metadata and oversized requests share
  one outcome, and several decoding errors are one refusal.
- Statistics, diffs, explanations, rendering, queries, host discovery, seed files, command-line tools and synthetic
  scenarios: no property beyond their text.
- The payload codecs of protocol messages other than the frame around them: they repeat the record round trip.
- The attach and detach convenience calls: they forward to adding and retiring a relationship.
- Sorting before a loop, where the loop's result does not depend on the order: such a loop visits its set in any order,
  which covers the sorted one. Loops that file edges anew visit them in ascending order, as the code does, because the
  last one filed is found. In a publication the order is a parameter and permutation invariance is proved. In a
  truncated traversal the order decides which of several equally distant nodes are listed; the theorem holds for each
  choice.
- The adjacency lists of the cycle search are not sorted and may hold a target twice; the search is proved for every
  such list, so removing duplicates makes no difference to its answer.
- Attachment exclusivity over whole runs: single mutations do not keep it, because revalidation never checks it again.
- Registry lookups return one answer per step: a registry that changes while one operation runs is not modelled.
- The history of snapshots is proved by itself (`Snapshots.History`); the numbering of a snapshot is a step of a run.
- Rule order in a recovered image: rules come back in the order the image lists them.
