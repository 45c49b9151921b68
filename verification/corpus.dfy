/** The corpus normaliser: the general question/answer records, the factor groups
    and the optional emergency block become one ordered list of documents, each
    text produced from a fixed template (backend/main.py lines 36-55). */
module Corpus {
  import opened Wrappers
  import opened Text

  /** One record of the general corpus. */
  datatype QaItem = QaItem(question: string, answer: string)

  /** A named group of candidate factors; it is both a document and a questionnaire step. */
  datatype FactorGroup = FactorGroup(groupName: string, factors: seq<string>)

  /** The `emergency_info` object of the structured corpus. Only the keys the
      program reads or that make the object non-empty are modelled. */
  datatype EmergencyInfo = EmergencyInfo(title: Option<string>, points: Option<seq<string>>)

  /** The structured corpus. A missing `factor_groups` key reads as the empty list;
      a missing or `null` `emergency_info` is `None`. */
  datatype FactorData = FactorData(groups: seq<FactorGroup>, emergency: Option<EmergencyInfo>)

  /** The provenance tag stored under the `source` metadata key. */
  datatype Source = GeneralQa | FactorGroups | Emergency

  datatype Metadata = Metadata(source: Source, group: Option<string>)

  datatype Document = Document(text: string, metadata: Metadata)

  /** Normalisation fails only when a non-empty emergency object has no `points` key. */
  datatype LoadError = MissingPoints

  /** The literal written under the `source` metadata key for each provenance. */
  function SourceTag(src: Source): string
  {
    match src
    case GeneralQa => "general_qa"
    case FactorGroups => "factor_groups"
    case Emergency => "emergency_info"
  }

  lemma SourceTagsDistinct(a: Source, b: Source)
    ensures SourceTag(a) == SourceTag(b) <==> a == b
  {
    if a != b {
      assert SourceTag(a)[0] != SourceTag(b)[0];
    }
  }

  const FactorSeparator: string := ", "
  const PointSeparator: string := "; "

  function QaText(item: QaItem): string
  {
    "Question: " + item.question + "\nAnswer: " + item.answer
  }

  function GroupText(g: FactorGroup): string
  {
    "Regarding the topic '" + g.groupName + "', the related factors or characteristics are: "
      + Join(g.factors, FactorSeparator) + "."
  }

  function EmergencyText(points: seq<string>): string
  {
    "Emergency medical care should be sought if: " + Join(points, PointSeparator)
  }

  function QaDocument(item: QaItem): Document
  {
    Document(QaText(item), Metadata(GeneralQa, None))
  }

  function GroupDocument(g: FactorGroup): Document
  {
    Document(GroupText(g), Metadata(FactorGroups, Some(g.groupName)))
  }

  function EmergencyDocument(points: seq<string>): Document
  {
    Document(EmergencyText(points), Metadata(Emergency, None))
  }

  /** Python truthiness of the emergency value: `None` and the empty object are false. */
  predicate EmergencyIsTruthy(e: Option<EmergencyInfo>)
  {
    e.Some? && (e.value.title.Some? || e.value.points.Some?)
  }

  /** Number of documents the emergency block contributes. */
  function EmergencyCount(e: Option<EmergencyInfo>): nat
  {
    if EmergencyIsTruthy(e) then 1 else 0
  }

  function QaDocuments(items: seq<QaItem>): seq<Document>
  {
    seq(|items|, i requires 0 <= i < |items| => QaDocument(items[i]))
  }

  function GroupDocuments(groups: seq<FactorGroup>): seq<Document>
  {
    seq(|groups|, j requires 0 <= j < |groups| => GroupDocument(groups[j]))
  }

  /** The combined document list: all question/answer documents in input order, then
      all factor-group documents in input order, then at most one emergency document. */
  function Normalize(general: seq<QaItem>, data: FactorData): (r: Result<seq<Document>, LoadError>)
    ensures r.Failure? <==> EmergencyIsTruthy(data.emergency) && data.emergency.value.points.None?
    ensures r.Success? ==> |r.value| == |general| + |data.groups| + EmergencyCount(data.emergency)
    ensures r.Success? ==> forall i :: 0 <= i < |general| ==> r.value[i] == QaDocument(general[i])
    ensures r.Success? ==>
      forall j :: 0 <= j < |data.groups| ==> r.value[|general| + j] == GroupDocument(data.groups[j])
    ensures r.Success? && EmergencyIsTruthy(data.emergency) ==>
      r.value[|r.value| - 1] == EmergencyDocument(data.emergency.value.points.value)
    ensures r.Success? ==> forall k :: 0 <= k < |r.value| ==> |r.value[k].text| > 0
  {
    var body := QaDocuments(general) + GroupDocuments(data.groups);
    if !EmergencyIsTruthy(data.emergency) then Success(body)
    else match data.emergency.value.points
      case None => Failure(MissingPoints)
      case Some(points) => Success(body + [EmergencyDocument(points)])
  }

  /** The normaliser written the way the program builds the list: three passes that
      append to one growing list. It produces exactly the combined list above. */
  method BuildDocuments(general: seq<QaItem>, data: FactorData)
    returns (r: Result<seq<Document>, LoadError>)
    ensures r == Normalize(general, data)
  {
    var documents: seq<Document> := [];
    for i := 0 to |general|
      invariant |documents| == i
      invariant forall k :: 0 <= k < i ==> documents[k] == QaDocument(general[k])
    {
      documents := documents + [QaDocument(general[i])];
    }
    var groups := data.groups;
    for j := 0 to |groups|
      invariant |documents| == |general| + j
      invariant forall k :: 0 <= k < |general| ==> documents[k] == QaDocument(general[k])
      invariant forall k :: 0 <= k < j ==> documents[|general| + k] == GroupDocument(groups[k])
    {
      documents := documents + [GroupDocument(groups[j])];
    }
    assert documents == QaDocuments(general) + GroupDocuments(groups);
    if EmergencyIsTruthy(data.emergency) {
      match data.emergency.value.points {
        case None =>
          return Failure(MissingPoints);
        case Some(points) =>
          documents := documents + [EmergencyDocument(points)];
      }
    }
    return Success(documents);
  }

  /** How many documents carry a given provenance tag. */
  function CountSource(docs: seq<Document>, src: Source): nat
    decreases |docs|
  {
    if |docs| == 0 then 0
    else (if docs[0].metadata.source == src then 1 else 0) + CountSource(docs[1..], src)
  }

  lemma {:induction false} CountSourceAppend(a: seq<Document>, b: seq<Document>, src: Source)
    ensures CountSource(a + b, src) == CountSource(a, src) + CountSource(b, src)
    decreases |a|
  {
    if |a| == 0 {
      assert a + b == b;
    } else {
      assert (a + b)[1..] == a[1..] + b;
      CountSourceAppend(a[1..], b, src);
    }
  }

  /** A list whose documents all carry one tag counts its full length for that tag
      and nothing for any other. */
  lemma {:induction false} CountUniform(docs: seq<Document>, tag: Source, src: Source)
    requires forall k :: 0 <= k < |docs| ==> docs[k].metadata.source == tag
    ensures CountSource(docs, src) == if src == tag then |docs| else 0
    decreases |docs|
  {
    if |docs| > 0 {
      CountUniform(docs[1..], tag, src);
    }
  }

  /** Corpus completeness: Q question/answer records give exactly Q `general_qa`
      documents, G groups give exactly G `factor_groups` documents, and the emergency
      block gives one `emergency_info` document exactly when it is truthy. */
  lemma CorpusCompleteness(general: seq<QaItem>, data: FactorData, src: Source)
    requires Normalize(general, data).Success?
    ensures CountSource(Normalize(general, data).value, src) ==
      match src
      case GeneralQa => |general|
      case FactorGroups => |data.groups|
      case Emergency => EmergencyCount(data.emergency)
  {
    var qa := QaDocuments(general);
    var gs := GroupDocuments(data.groups);
    CountUniform(qa, GeneralQa, src);
    CountUniform(gs, FactorGroups, src);
    CountSourceAppend(qa, gs, src);
    if EmergencyIsTruthy(data.emergency) {
      var e := [EmergencyDocument(data.emergency.value.points.value)];
      CountUniform(e, Emergency, src);
      CountSourceAppend(qa + gs, e, src);
    }
  }

  /** How many documents store the literal `tag` under their `source` metadata key. */
  function CountTag(docs: seq<Document>, tag: string): nat
    decreases |docs|
  {
    if |docs| == 0 then 0
    else (if SourceTag(docs[0].metadata.source) == tag then 1 else 0) + CountTag(docs[1..], tag)
  }

  /** Counting a stored literal is counting the provenance it names; a literal that
      names no provenance is never stored. */
  lemma {:induction false} CountTagOfSource(docs: seq<Document>, tag: string, src: Source)
    ensures tag == SourceTag(src) ==> CountTag(docs, tag) == CountSource(docs, src)
    ensures (forall p: Source :: SourceTag(p) != tag) ==> CountTag(docs, tag) == 0
    decreases |docs|
  {
    if |docs| > 0 {
      SourceTagsDistinct(docs[0].metadata.source, src);
      CountTagOfSource(docs[1..], tag, src);
    }
  }

  /** Corpus completeness over what the program stores: exactly Q documents carry the
      `general_qa` literal, exactly G carry `factor_groups`, one carries `emergency_info`
      exactly when the emergency block is truthy, and no document carries any other. */
  lemma StoredTagCounts(general: seq<QaItem>, data: FactorData, tag: string)
    requires Normalize(general, data).Success?
    ensures var docs := Normalize(general, data).value;
      CountTag(docs, tag) ==
        if tag == "general_qa" then |general|
        else if tag == "factor_groups" then |data.groups|
        else if tag == "emergency_info" then EmergencyCount(data.emergency)
        else 0
  {
    var docs := Normalize(general, data).value;
    var src := if tag == "general_qa" then GeneralQa
      else if tag == "factor_groups" then FactorGroups
      else Emergency;
    CountTagOfSource(docs, tag, src);
    CorpusCompleteness(general, data, src);
  }

  /** The emergency block is tested for truthiness, not presence: an empty object adds
      nothing, exactly like a missing one, while an object whose `points` list is
      empty still adds a document whose text ends right after the colon. */
  lemma EmergencyEdgeCases(general: seq<QaItem>, groups: seq<FactorGroup>, title: Option<string>)
    ensures Normalize(general, FactorData(groups, Some(EmergencyInfo(None, None))))
         == Normalize(general, FactorData(groups, None))
    ensures var r := Normalize(general, FactorData(groups, Some(EmergencyInfo(title, Some([])))));
      r.Success? && |r.value| == |general| + |groups| + 1
      && r.value[|r.value| - 1].text == "Emergency medical care should be sought if: "
  {
  }

  /** Each factor-group document names its group in the metadata and in the text, and
      lists every factor of the group. */
  lemma GroupDocumentMentionsFactors(g: FactorGroup, k: int)
    requires 0 <= k < |g.factors|
    ensures GroupDocument(g).metadata == Metadata(FactorGroups, Some(g.groupName))
    ensures ContainsSpec(GroupDocument(g).text, g.groupName)
    ensures ContainsSpec(GroupDocument(g).text, g.factors[k])
  {
    var pre := "Regarding the topic '";
    var mid := "', the related factors or characteristics are: ";
    var t := GroupText(g);
    assert t == pre + g.groupName + (mid + Join(g.factors, FactorSeparator) + ".");
    assert OccursAt(g.groupName, g.groupName, 0);
    ContainsInContext(pre, g.groupName, mid + Join(g.factors, FactorSeparator) + ".", g.groupName);
    JoinContainsEach(g.factors, FactorSeparator, k);
    ContainsInContext(pre + g.groupName + mid, Join(g.factors, FactorSeparator), ".", g.factors[k]);
  }
}
