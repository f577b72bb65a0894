/** Nodes, edges, scopes and rules as records of the state image. */
module ImageRecords {
  import opened Types
  import opened Graphs
  import opened Authority
  import opened Codec
  import opened Records
  import opened Image

  /** Limits small enough for the length fields that carry them. */
  predicate Encodable(limits: Limits) {
    limits.maxIdentifier < U32 && limits.maxMetadataKey < U32 && limits.maxMetadataValue < U32
    && limits.maxMetadataEntries < U32
  }

  predicate Identifier(s: string) {
    s == "" || ValidIdentifier(s, MAX_IDENTIFIER)
  }

  predicate Label(s: string) {
    |s| <= MAX_IDENTIFIER
  }

  // ---- Provenance --------------------------------------------------------------------------

  const PROVENANCE_SHAPES: seq<Shape> := [
    LABEL, LABEL, WORD, CodeShape(SOURCES), CodeShape(EVIDENCE_TYPES), WORD, LABEL, LABEL, WORD, WORD]

  function ProvenanceFields(p: Provenance): seq<Field> {
    [Text(p.publisher), Text(p.boot), Word(p.epoch), Code(SourceCode(p.source)), Code(EvidenceTypeCode(p.evidenceType)),
     Word(p.evidence), Text(p.sourceRelationship), Text(p.publication), Word(p.created), Word(p.validated)]
  }

  function ProvenanceFrom(fs: seq<Field>): Provenance
    requires Conforms(PROVENANCE_SHAPES, fs)
  {
    assert forall i :: 0 <= i < 10 ==> Acceptable(PROVENANCE_SHAPES[i], fs[i]);
    Provenance(fs[0].text, fs[1].text, FromWord(fs[2]), FromCode(SOURCES, fs[3]), FromCode(EVIDENCE_TYPES, fs[4]),
               FromWord(fs[5]), fs[6].text, fs[7].text, FromWord(fs[8]), FromWord(fs[9]))
  }

  predicate StorableProvenance(p: Provenance) {
    Label(p.publisher) && Label(p.boot) && Label(p.sourceRelationship) && Label(p.publication)
  }

  lemma ProvenanceFits(p: Provenance)
    requires StorableProvenance(p)
    ensures AllFit(PROVENANCE_SHAPES, ProvenanceFields(p))
    ensures Conforms(PROVENANCE_SHAPES, ProvenanceFields(p)) && ProvenanceFrom(ProvenanceFields(p)) == p
  {
    hide ValidIdentifier, Pow256;
    Widths();
  }

  // ---- Nodes -----------------------------------------------------------------------------------

  function NodeHeadShapes(limits: Limits): seq<Shape> {
    [IDENTIFIER, TextShape(limits.maxIdentifier, true), CodeShape(ENTITY_CLASSES), WORD, CodeShape(NODE_CLASSES),
     CodeShape(TIERS), LABEL, WORD, WORD, WORD, CodeShape(LIFECYCLES)]
  }

  function NodeHeadFields(n: Node): seq<Field> {
    [Text(n.id), Text(n.entity), Code(EntityClassCode(n.entityClass)), Word(n.entityGeneration),
        Code(NodeClassCode(n.nodeClass)),
     Code(TierCode(n.tier)), Text(n.domain), Word(n.generation), Word(n.created), Word(n.validated),
     Code(LifecycleCode(n.lifecycle))]
  }

  function NodeFrom(limits: Limits, fs: seq<Field>, p: Provenance, m: Metadata): Node
    requires Conforms(NodeHeadShapes(limits), fs)
  {
    assert forall i :: 0 <= i < 11 ==> Acceptable(NodeHeadShapes(limits)[i], fs[i]);
    Node(fs[0].text, fs[1].text, FromCode(ENTITY_CLASSES, fs[2]), FromWord(fs[3]), FromCode(NODE_CLASSES, fs[4]),
         FromCode(TIERS, fs[5]), fs[6].text, FromWord(fs[7]), FromWord(fs[8]), FromWord(fs[9]),
         FromCode(LIFECYCLES, fs[10]), p, m)
  }

  predicate StorableNode(n: Node, limits: Limits) {
    && Identifier(n.id) && (n.entity == "" || ValidIdentifier(n.entity, limits.maxIdentifier)) && Label(n.domain)
    && StorableProvenance(n.provenance) && Kept(n.metadata, limits)
  }

  lemma NodeHeadFits(n: Node, limits: Limits)
    requires StorableNode(n, limits) && Encodable(limits)
    ensures AllFit(NodeHeadShapes(limits), NodeHeadFields(n))
    ensures Conforms(NodeHeadShapes(limits), NodeHeadFields(n))
    ensures NodeFrom(limits, NodeHeadFields(n), n.provenance, n.metadata) == n
  {
    hide Pow256, StorableProvenance, Kept;
    Widths();
  }

  function PutNode(n: Node): Bytes {
    PutAll(NodeHeadFields(n)) + (PutAll(ProvenanceFields(n.provenance)) + PutMetadata(n.metadata))
  }

  function TakeNode(limits: Limits, s: Bytes): Reading<Node> {
    var head := TakeAll(NodeHeadShapes(limits), s);
    if head.None? then None
    else
      TakenConforms(NodeHeadShapes(limits), s);
      var tail := TakeTail(limits, head.value.1);
      if tail.None? then None
      else Some((NodeFrom(limits, head.value.0, tail.value.0.0, tail.value.0.1), tail.value.1))
  }

  /** Provenance and metadata end both nodes and edges. */
  function TakeTail(limits: Limits, s: Bytes): Reading<(Provenance, Metadata)> {
    var p := TakeAll(PROVENANCE_SHAPES, s);
    if p.None? then None
    else
      TakenConforms(PROVENANCE_SHAPES, s);
      var m := TakeMetadata(limits, p.value.1);
      if m.None? then None else Some(((ProvenanceFrom(p.value.0), m.value.0), m.value.1))
  }

  lemma TailRoundTrip(p: Provenance, m: Metadata, limits: Limits, rest: Bytes)
    requires StorableProvenance(p) && Kept(m, limits) && Encodable(limits)
    ensures TakeTail(limits, PutAll(ProvenanceFields(p)) + PutMetadata(m) + rest) == Some(((p, m), rest))
  {
    hide PutAll, TakeAll, PutMetadata, TakeMetadata, ProvenanceFields, ProvenanceFrom, AllFit, Conforms, Kept,
         StorableProvenance;
    ProvenanceFits(p);
    TakeAllPut(PROVENANCE_SHAPES, ProvenanceFields(p), PutMetadata(m) + rest);
    assert PutAll(ProvenanceFields(p)) + PutMetadata(m) + rest == PutAll(ProvenanceFields(p)) + (PutMetadata(m) + rest);
    MetadataRoundTrip(m, limits, rest);
  }

  lemma NodeRoundTrip(n: Node, limits: Limits, rest: Bytes)
    requires StorableNode(n, limits) && Encodable(limits)
    ensures TakeNode(limits, PutNode(n) + rest) == Some((n, rest))
  {
    hide PutAll, TakeAll, PutMetadata, TakeTail, NodeHeadFields, NodeFrom, AllFit, Conforms, NodeHeadShapes,
         ProvenanceFields,
         Kept, StorableProvenance, ValidIdentifier;
    NodeHeadFits(n, limits);
    var tail := PutAll(ProvenanceFields(n.provenance)) + PutMetadata(n.metadata);
    assert PutNode(n) + rest == PutAll(NodeHeadFields(n)) + (tail + rest);
    TakeAllPut(NodeHeadShapes(limits), NodeHeadFields(n), tail + rest);
    TailRoundTrip(n.provenance, n.metadata, limits, rest);
  }

  // ---- Edges ----------------------------------------------------------------------------------------

  const EDGE_NAME_SHAPES: seq<Shape> := [
    IDENTIFIER, IDENTIFIER, CodeShape(RELATIONS), IDENTIFIER, IDENTIFIER, CodeShape(LAYERS), IDENTIFIER, FLAG,
        IDENTIFIER]

  const EDGE_COUNTER_SHAPES: seq<Shape> := [WORD, WORD, WORD, WORD, WORD, WORD, CodeShape(LIFECYCLES)]

  const EDGE_LINK_SHAPES: seq<Shape> := [FLAG, LABEL, FLAG, LABEL, FLAG, LABEL]

  function TextOf(o: Option<string>): string {
    if o.Some? then o.value else ""
  }

  function EdgeNameFields(e: Edge): seq<Field> {
    [Text(e.id), Text(e.relationship), Code(RelationCode(e.relation)), Text(e.from), Text(e.to),
        Code(LayerCode(e.layer)),
     Text(e.domain), Flag(e.crossDomain), Text(e.secondary)]
  }

  function EdgeCounterFields(e: Edge): seq<Field> {
    [Word(e.generation), Word(e.created), Word(e.validated), Word(e.evidence), Word(e.fromGeneration),
        Word(e.toGeneration),
     Code(LifecycleCode(e.lifecycle))]
  }

  function EdgeLinkFields(e: Edge): seq<Field> {
    [Flag(e.supportedBy.Some?), Text(TextOf(e.supportedBy)), Flag(e.supersededBy.Some?), Text(TextOf(e.supersededBy)),
     Flag(e.attachment.Some?), Text(TextOf(e.attachment))]
  }

  /** An edge with only its names filled in, then with its counters, then with its links. */
  function EdgeNamed(fs: seq<Field>, p: Provenance, m: Metadata): Edge
    requires Conforms(EDGE_NAME_SHAPES, fs)
  {
    assert forall i :: 0 <= i < 9 ==> Acceptable(EDGE_NAME_SHAPES[i], fs[i]);
    Edge(fs[0].text, fs[1].text, FromCode(RELATIONS, fs[2]), fs[3].text, fs[4].text, FromCode(LAYERS, fs[5]),
        fs[6].text,
         FromFlag(fs[7]), fs[8].text, 0, 0, 0, 0, 0, 0, UnknownLifecycle, None, None, None, p, m)
  }

  function EdgeCounted(e: Edge, fs: seq<Field>): Edge
    requires Conforms(EDGE_COUNTER_SHAPES, fs)
  {
    assert forall i :: 0 <= i < 7 ==> Acceptable(EDGE_COUNTER_SHAPES[i], fs[i]);
    e.(generation := FromWord(fs[0]), created := FromWord(fs[1]), validated := FromWord(fs[2]),
        evidence := FromWord(fs[3]),
       fromGeneration := FromWord(fs[4]), toGeneration := FromWord(fs[5]), lifecycle := FromCode(LIFECYCLES, fs[6]))
  }

  function EdgeLinked(e: Edge, fs: seq<Field>): Edge
    requires Conforms(EDGE_LINK_SHAPES, fs)
  {
    assert forall i :: 0 <= i < 6 ==> Acceptable(EDGE_LINK_SHAPES[i], fs[i]);
    e.(supportedBy := FromOptional(fs[0], fs[1]), supersededBy := FromOptional(fs[2], fs[3]),
       attachment := FromOptional(fs[4], fs[5]))
  }

  predicate StorableEdge(e: Edge, limits: Limits) {
    && Identifier(e.id) && Identifier(e.relationship) && Identifier(e.from) && Identifier(e.to) && Identifier(e.domain)
    && Identifier(e.secondary) && Label(TextOf(e.supportedBy)) && Label(TextOf(e.supersededBy))
        && Label(TextOf(e.attachment))
    && StorableProvenance(e.provenance) && Kept(e.metadata, limits)
  }

  lemma EdgeNamesFit(e: Edge, limits: Limits)
    requires StorableEdge(e, limits)
    ensures AllFit(EDGE_NAME_SHAPES, EdgeNameFields(e)) && Conforms(EDGE_NAME_SHAPES, EdgeNameFields(e))
    ensures EdgeNamed(EdgeNameFields(e), e.provenance, e.metadata)
            == e.(generation := 0, created := 0, validated := 0, evidence := 0, fromGeneration := 0, toGeneration := 0,
                  lifecycle := UnknownLifecycle, supportedBy := None, supersededBy := None, attachment := None)
  {
    hide Pow256, StorableProvenance, Kept;
    Widths();
  }

  lemma EdgeCountersFit(e: Edge, named: Edge)
    ensures AllFit(EDGE_COUNTER_SHAPES, EdgeCounterFields(e)) && Conforms(EDGE_COUNTER_SHAPES, EdgeCounterFields(e))
    ensures EdgeCounted(named, EdgeCounterFields(e))
            == named.(generation := e.generation, created := e.created, validated := e.validated,
                evidence := e.evidence,
                      fromGeneration := e.fromGeneration, toGeneration := e.toGeneration, lifecycle := e.lifecycle)
  {
    hide Pow256;
    Widths();
  }

  lemma EdgeLinksFit(e: Edge, limits: Limits, counted: Edge)
    requires StorableEdge(e, limits)
    ensures AllFit(EDGE_LINK_SHAPES, EdgeLinkFields(e)) && Conforms(EDGE_LINK_SHAPES, EdgeLinkFields(e))
    ensures EdgeLinked(counted, EdgeLinkFields(e))
            == counted.(supportedBy := e.supportedBy, supersededBy := e.supersededBy, attachment := e.attachment)
  {
    hide Pow256, StorableProvenance, Kept, ValidIdentifier;
    Widths();
  }

  function PutEdge(e: Edge): Bytes {
    PutAll(EdgeNameFields(e)) + (PutAll(EdgeCounterFields(e)) + (PutAll(EdgeLinkFields(e))
      + (PutAll(ProvenanceFields(e.provenance)) + PutMetadata(e.metadata))))
  }

  function TakeEdge(limits: Limits, s: Bytes): Reading<Edge> {
    var names := TakeAll(EDGE_NAME_SHAPES, s);
    if names.None? then None
    else
      var counters := TakeAll(EDGE_COUNTER_SHAPES, names.value.1);
      if counters.None? then None
      else
        var links := TakeAll(EDGE_LINK_SHAPES, counters.value.1);
        if links.None? then None
        else
          var tail := TakeTail(limits, links.value.1);
          if tail.None? then None
          else
            TakenConforms(EDGE_NAME_SHAPES, s);
            TakenConforms(EDGE_COUNTER_SHAPES, names.value.1);
            TakenConforms(EDGE_LINK_SHAPES, counters.value.1);
            var named := EdgeNamed(names.value.0, tail.value.0.0, tail.value.0.1);
            Some((EdgeLinked(EdgeCounted(named, counters.value.0), links.value.0), tail.value.1))
  }

  lemma EdgeRoundTrip(e: Edge, limits: Limits, rest: Bytes)
    requires StorableEdge(e, limits) && Encodable(limits)
    ensures TakeEdge(limits, PutEdge(e) + rest) == Some((e, rest))
  {
    hide PutAll, TakeAll, PutMetadata, TakeTail, EdgeNameFields, EdgeCounterFields, EdgeLinkFields, EdgeNamed,
         EdgeCounted,
         EdgeLinked, AllFit, Conforms, ProvenanceFields, Kept, StorableProvenance, ValidIdentifier;
    var tail := PutAll(ProvenanceFields(e.provenance)) + PutMetadata(e.metadata);
    var links := PutAll(EdgeLinkFields(e)) + (tail + rest);
    var counters := PutAll(EdgeCounterFields(e)) + links;
    assert PutEdge(e) + rest == PutAll(EdgeNameFields(e)) + counters;
    EdgeNamesFit(e, limits);
    var named := EdgeNamed(EdgeNameFields(e), e.provenance, e.metadata);
    EdgeCountersFit(e, named);
    EdgeLinksFit(e, limits, EdgeCounted(named, EdgeCounterFields(e)));
    TakeAllPut(EDGE_NAME_SHAPES, EdgeNameFields(e), counters);
    TakeAllPut(EDGE_COUNTER_SHAPES, EdgeCounterFields(e), links);
    TakeAllPut(EDGE_LINK_SHAPES, EdgeLinkFields(e), tail + rest);
    TailRoundTrip(e.provenance, e.metadata, limits, rest);
  }

  // ---- Scopes, rules and boots ------------------------------------------------------------------------

  function DomainShapes(limits: Limits): seq<Shape> {
    [IDENTIFIER, CodeShape(SCOPE_KINDS), TextShape(limits.maxIdentifier, false), CodeShape(ENTITY_CLASSES), IDENTIFIER]
  }

  function DomainFields(d: DomainDefinition): seq<Field> {
    [Text(d.id), Code(ScopeKindCode(d.kind)), Text(d.anchor), Code(EntityClassCode(d.anchorClass)), Text(d.parent)]
  }

  predicate StorableDomain(d: DomainDefinition, limits: Limits) {
    Identifier(d.id) && |d.anchor| <= limits.maxIdentifier && Identifier(d.parent)
  }

  function PutDomain(d: DomainDefinition): Bytes {
    PutAll(DomainFields(d))
  }

  function TakeDomain(limits: Limits, s: Bytes): Reading<DomainDefinition> {
    var r := TakeAll(DomainShapes(limits), s);
    if r.None? then None
    else
      TakenConforms(DomainShapes(limits), s);
      var fs := r.value.0;
      assert forall i :: 0 <= i < 5 ==> Acceptable(DomainShapes(limits)[i], fs[i]);
      Some((DomainDefinition(fs[0].text, FromCode(SCOPE_KINDS, fs[1]), fs[2].text, FromCode(ENTITY_CLASSES, fs[3]),
          fs[4].text),
            r.value.1))
  }

  lemma DomainRoundTrip(d: DomainDefinition, limits: Limits, rest: Bytes)
    requires StorableDomain(d, limits) && Encodable(limits)
    ensures TakeDomain(limits, PutDomain(d) + rest) == Some((d, rest))
  {
    hide PutAll, TakeAll, Pow256;
    Widths();
    TakeAllPut(DomainShapes(limits), DomainFields(d), rest);
  }

  const RULE_SHAPES: seq<Shape> := [IDENTIFIER, IDENTIFIER, CodeShape(RELATIONS), FLAG]

  function RuleFields(r: CrossDomainRule): seq<Field> {
    [Text(r.from), Text(r.to), Code(RelationCode(r.relation)), Flag(r.symmetric)]
  }

  predicate StorableRule(r: CrossDomainRule) {
    Identifier(r.from) && Identifier(r.to) && r.relation != UnknownRelation
  }

  function PutRule(r: CrossDomainRule): Bytes {
    PutAll(RuleFields(r))
  }

  /** A rule without a relation class is refused. */
  function TakeRule(s: Bytes): Reading<CrossDomainRule> {
    var r := TakeAll(RULE_SHAPES, s);
    if r.None? then None
    else
      TakenConforms(RULE_SHAPES, s);
      var fs := r.value.0;
      assert forall i :: 0 <= i < 4 ==> Acceptable(RULE_SHAPES[i], fs[i]);
      if fs[2].value == 0 then None
      else Some((CrossDomainRule(fs[0].text, fs[1].text, FromCode(RELATIONS, fs[2]), FromFlag(fs[3])), r.value.1))
  }

  lemma RuleRoundTrip(r: CrossDomainRule, rest: Bytes)
    requires StorableRule(r)
    ensures TakeRule(PutRule(r) + rest) == Some((r, rest))
  {
    hide PutAll, TakeAll, Pow256;
    Widths();
    TakeAllPut(RULE_SHAPES, RuleFields(r), rest);
  }

  function PutBoot(boot: BootId): Bytes {
    PutAll([Text(boot)])
  }

  function TakeBoot(s: Bytes): Reading<BootId> {
    var r := TakeAll([IDENTIFIER], s);
    if r.None? then None
    else
      TakenConforms([IDENTIFIER], s);
      assert Acceptable([IDENTIFIER][0], r.value.0[0]);
      Some((r.value.0[0].text, r.value.1))
  }

  lemma BootRoundTrip(boot: BootId, rest: Bytes)
    requires Identifier(boot)
    ensures TakeBoot(PutBoot(boot) + rest) == Some((boot, rest))
  {
    hide PutAll, TakeAll;
    TakeAllPut([IDENTIFIER], [Text(boot)], rest);
  }
}
