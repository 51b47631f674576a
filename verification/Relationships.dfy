/** The entities of the dependency analysis (packages/shared-domain/src/apiDependency.ts). */
module Relationships {
  import opened Sequences

  datatype Confidence = CONFIRMED | LIKELY | POSSIBLE

  datatype Source = Deterministic | AI | DeterministicAndAI | Observed | Declared

  datatype FieldRef = FieldRef(operationPath: string, operationMethod: string, field: string, location: Option<string>)

  datatype Evidence = Evidence(
    nameMatch: bool, typeMatch: bool, formatMatch: bool, resourceRelationship: bool, tagAlignment: bool)

  datatype Corroboration = Corroboration(aiModel: string, aiProvider: string, aiConfidence: real, aiRationale: string)

  datatype HintOrigin = FromDeclaration | FromCapture

  /** An observed or declared input hint; `verified` and `matchCount` are optional in the source. */
  datatype Hint = Hint(
    producer: FieldRef, consumer: FieldRef, origin: HintOrigin, verified: bool, matchCount: Option<int>)

  datatype Relationship = Relationship(
    id: string,
    producer: FieldRef,
    consumer: FieldRef,
    confidence: Confidence,
    source: Source,
    evidence: Option<Evidence>,
    ai: Option<Corroboration>,
    inputEvidence: Option<Hint>)

  datatype OperationNode = OperationNode(path: string, verb: string)

  function NodeKey(node: OperationNode): string {
    Join([node.verb, node.path], " ")
  }

  function ProducerNode(r: Relationship): OperationNode {
    OperationNode(r.producer.operationPath, r.producer.operationMethod)
  }

  function ConsumerNode(r: Relationship): OperationNode {
    OperationNode(r.consumer.operationPath, r.consumer.operationMethod)
  }

  function ProducerKey(r: Relationship): string {
    NodeKey(ProducerNode(r))
  }

  function ConsumerKey(r: Relationship): string {
    NodeKey(ConsumerNode(r))
  }

  /** A key is the method of the operation, a space and its path. */
  lemma KeysRead(r: Relationship)
    ensures ProducerKey(r) == r.producer.operationMethod + " " + r.producer.operationPath
    ensures ConsumerKey(r) == r.consumer.operationMethod + " " + r.consumer.operationPath
  {
    KeyReads(ProducerNode(r));
    KeyReads(ConsumerNode(r));
  }

  lemma KeyReads(node: OperationNode)
    ensures NodeKey(node) == node.verb + " " + node.path
  {
    var parts := [node.verb, node.path];
    assert parts[1..] == [node.path];
    assert Join(parts, " ") == node.verb + " " + Join([node.path], " ");
  }

  /** Two operations have one key exactly when they are one, as no method has a space in it. */
  lemma KeysIdentify(a: OperationNode, b: OperationNode)
    requires ' ' !in a.verb && ' ' !in b.verb
    ensures NodeKey(a) == NodeKey(b) <==> a == b
  {
    KeyReads(a);
    KeyReads(b);
    if NodeKey(a) == NodeKey(b) {
      FirstSeparator(a.verb, b.verb, a.path, b.path, ' ');
    }
  }

  /** The operation graph: one arc from producer to consumer per relationship. */
  function ArcOf(r: Relationship): (string, string) {
    (ProducerKey(r), ConsumerKey(r))
  }

  function Arcs(rels: seq<Relationship>): (arcs: seq<(string, string)>) {
    Map(rels, ArcOf)
  }

  lemma ArcsMembers(rels: seq<Relationship>)
    ensures forall r :: r in rels ==> ArcOf(r) in Arcs(rels)
    ensures forall e :: e in Arcs(rels) ==> exists r :: r in rels && ArcOf(r) == e
  {
    forall r | r in rels ensures ArcOf(r) in Arcs(rels) {
      var i :| 0 <= i < |rels| && rels[i] == r;
      assert Arcs(rels)[i] == ArcOf(r);
    }
    forall e | e in Arcs(rels) ensures exists r :: r in rels && ArcOf(r) == e {
      var i :| 0 <= i < |Arcs(rels)| && Arcs(rels)[i] == e;
      assert rels[i] in rels && ArcOf(rels[i]) == e;
    }
  }
}
