/** The document-building part of `RAGAssistant.load_json_knowledge_base`: from
    the parsed knowledge base to the ordered list of documents to be indexed. */
module KnowledgeBase {
  import opened Text
  import opened JsonValue
  import opened Extractor
  import opened Wrappers

  /** A document's metadata dictionary. */
  type Metadata = map<string, string>

  /** A LangChain `Document`: its page content and its metadata. */
  datatype Document = Document(pageContent: string, metadata: Metadata)

  /** The document for the item at position `i` of a top-level list. */
  function ListItemDocument(i: nat, content: string): Document {
    Document(content, map["source" := "document_" + NatToString(i), "item_id" := NatToString(i)])
  }

  /** The source reported for a document whose metadata has none. */
  const UnknownSource := "Unknown"

  /** `metadata.get("source", "Unknown")`. */
  function SourceOf(metadata: Metadata): string {
    if "source" in metadata then metadata["source"] else UnknownSource
  }

  /** The `item_id` entry of a document's metadata, or `""` when there is none. */
  function ItemIdOf(metadata: Metadata): string {
    if "item_id" in metadata then metadata["item_id"] else ""
  }

  /** The document for the member `key` of a top-level object. */
  function KeyDocument(key: string, content: string): Document {
    Document(content, map["source" := key, "item_id" := key])
  }

  /** The documents of the first `n` items of a top-level list: one per item
      whose extraction is non-empty, numbered by the item's own position. */
  function ListDocs(items: seq<Json>, n: nat): seq<Document>
    requires n <= |items|
  {
    if n == 0 then []
    else
      var content := Extract(items[n - 1]);
      ListDocs(items, n - 1) + (if content != "" then [ListItemDocument(n - 1, content)] else [])
  }

  /** The documents of the first `n` members of a top-level object. */
  function ObjDocs(members: seq<Member>, n: nat): seq<Document>
    requires n <= |members|
  {
    if n == 0 then []
    else
      var content := Extract(members[n - 1].value);
      ObjDocs(members, n - 1) + (if content != "" then [KeyDocument(members[n - 1].key, content)] else [])
  }

  /** The specification of the builder: the documents a parsed knowledge base
      yields. Anything but a list or an object yields none. */
  function Documents(data: Json): seq<Document> {
    match data
    case Arr(items) => ListDocs(items, |items|)
    case Obj(ms) => ObjDocs(ms, |ms|)
    case _ => []
  }

  /** The imperative builder: one pass over the items or members, extracting
      each and appending a document for each non-empty extraction. */
  method BuildDocuments(data: Json) returns (documents: seq<Document>)
    ensures documents == Documents(data)
  {
    documents := [];
    match data {
      case Arr(items) =>
        var i := 0;
        while i < |items|
          invariant 0 <= i <= |items|
          invariant documents == ListDocs(items, i)
        {
          var content := ExtractContent(items[i]);
          if content != "" {
            documents := documents + [ListItemDocument(i, content)];
          }
          i := i + 1;
        }
      case Obj(ms) =>
        var i := 0;
        while i < |ms|
          invariant 0 <= i <= |ms|
          invariant documents == ObjDocs(ms, i)
        {
          var content := ExtractContent(ms[i].value);
          if content != "" {
            documents := documents + [KeyDocument(ms[i].key, content)];
          }
          i := i + 1;
        }
      case _ =>
    }
  }

  /** `load_json_knowledge_base` once the file has been read: a parse failure is
      re-raised unchanged; a parsed value becomes its documents. */
  method LoadJsonKnowledgeBase(parsed: Result<Json>) returns (r: Result<seq<Document>>)
    ensures parsed.Err? ==> r == Err(parsed.error)
    ensures parsed.Ok? ==> r.Ok? && r.value == Documents(parsed.value)
  {
    match parsed {
      case Err(e) =>
        r := Err(e);
      case Ok(data) =>
        var documents := BuildDocuments(data);
        r := Ok(documents);
    }
  }

  /** The extraction of every element of a list. */
  function ItemExtractions(items: seq<Json>): (xs: seq<string>)
    ensures |xs| == |items|
    ensures forall k :: 0 <= k < |items| ==> xs[k] == Extract(items[k])
  {
    seq(|items|, k requires 0 <= k < |items| => Extract(items[k]))
  }

  /** The extraction of every member's value of an object. */
  function MemberExtractions(members: seq<Member>): (xs: seq<string>)
    ensures |xs| == |members|
    ensures forall k :: 0 <= k < |members| ==> xs[k] == Extract(members[k].value)
  {
    seq(|members|, k requires 0 <= k < |members| => Extract(members[k].value))
  }

  /** The positions below `n` whose text is non-empty, in increasing order: the
      reference for which items survive into the document list. */
  function Kept(xs: seq<string>, n: nat): seq<nat>
    requires n <= |xs|
  {
    if n == 0 then []
    else Kept(xs, n - 1) + (if xs[n - 1] != "" then [n - 1] else [])
  }

  /** `Kept` lists exactly the positions below `n` with non-empty text, each once,
      in increasing order. */
  lemma {:induction false} KeptSpec(xs: seq<string>, n: nat)
    requires n <= |xs|
    ensures |Kept(xs, n)| <= n
    ensures forall k :: 0 <= k < |Kept(xs, n)| ==> Kept(xs, n)[k] < n && xs[Kept(xs, n)[k]] != ""
    ensures forall j, k :: 0 <= j < k < |Kept(xs, n)| ==> Kept(xs, n)[j] < Kept(xs, n)[k]
    ensures forall i :: 0 <= i < n && xs[i] != "" ==> i in Kept(xs, n)
  {
    if n > 0 {
      KeptSpec(xs, n - 1);
    }
  }

  /** A top-level list yields, in item order, one document per item with a
      non-empty extraction; the document carries that extraction and the
      item's original position as `document_<i>` and `<i>`, with no renumbering
      after skipped items. */
  lemma {:induction false} ListDocsShape(items: seq<Json>, n: nat)
    requires n <= |items|
    ensures |ListDocs(items, n)| == |Kept(ItemExtractions(items), n)|
    ensures forall k :: 0 <= k < |ListDocs(items, n)| ==>
      var i := Kept(ItemExtractions(items), n)[k];
      i < |items| && ListDocs(items, n)[k] == ListItemDocument(i, Extract(items[i]))
  {
    var xs := ItemExtractions(items);
    if n > 0 {
      ListDocsShape(items, n - 1);
      var prev, ks := ListDocs(items, n - 1), Kept(xs, n - 1);
      var content := Extract(items[n - 1]);
      assert xs[n - 1] == content;
      var docs, kept := ListDocs(items, n), Kept(xs, n);
      if content != "" {
        assert docs == prev + [ListItemDocument(n - 1, content)];
        assert kept == ks + [n - 1];
      } else {
        assert docs == prev && kept == ks;
      }
      forall k | 0 <= k < |docs|
        ensures kept[k] < |items| && docs[k] == ListItemDocument(kept[k], Extract(items[kept[k]]))
      {
        if k < |prev| {
          assert docs[k] == prev[k] && kept[k] == ks[k];
        }
      }
    }
  }

  /** A top-level object yields, in member order, one document per member with
      a non-empty extraction, whose source and item id are both the key. */
  lemma {:induction false} ObjDocsShape(members: seq<Member>, n: nat)
    requires n <= |members|
    ensures |ObjDocs(members, n)| == |Kept(MemberExtractions(members), n)|
    ensures forall k :: 0 <= k < |ObjDocs(members, n)| ==>
      var i := Kept(MemberExtractions(members), n)[k];
      i < |members| && ObjDocs(members, n)[k] == KeyDocument(members[i].key, Extract(members[i].value))
  {
    var xs := MemberExtractions(members);
    if n > 0 {
      ObjDocsShape(members, n - 1);
      var prev, ks := ObjDocs(members, n - 1), Kept(xs, n - 1);
      var content := Extract(members[n - 1].value);
      assert xs[n - 1] == content;
      var docs, kept := ObjDocs(members, n), Kept(xs, n);
      if content != "" {
        assert docs == prev + [KeyDocument(members[n - 1].key, content)];
        assert kept == ks + [n - 1];
      } else {
        assert docs == prev && kept == ks;
      }
      forall k | 0 <= k < |docs|
        ensures kept[k] < |members| && docs[k] == KeyDocument(members[kept[k]].key, Extract(members[kept[k]].value))
      {
        if k < |prev| {
          assert docs[k] == prev[k] && kept[k] == ks[k];
        }
      }
    }
  }

  /** Every document has non-empty content, and there are never more documents
      than items or members; so an empty list or an empty object, like a
      top-level scalar or `null`, gives no documents. */
  lemma DocumentsNonEmpty(data: Json)
    ensures forall d :: d in Documents(data) ==> d.pageContent != ""
    ensures data.Arr? ==> |Documents(data)| <= |data.items|
    ensures data.Obj? ==> |Documents(data)| <= |data.members|
    ensures !data.Arr? && !data.Obj? ==> Documents(data) == []
  {
    match data
    case Arr(items) =>
      ListDocsShape(items, |items|);
      KeptSpec(ItemExtractions(items), |items|);
      forall d | d in Documents(data) ensures d.pageContent != "" {
        var k :| 0 <= k < |Documents(data)| && Documents(data)[k] == d;
      }
    case Obj(ms) =>
      ObjDocsShape(ms, |ms|);
      KeptSpec(MemberExtractions(ms), |ms|);
      forall d | d in Documents(data) ensures d.pageContent != "" {
        var k :| 0 <= k < |Documents(data)| && Documents(data)[k] == d;
      }
    case _ =>
  }

  /** The same prefix before two different texts gives two different texts. */
  lemma PrefixCancel(p: string, a: string, b: string)
    ensures p + a == p + b ==> a == b
  {
    if p + a == p + b {
      assert a == (p + a)[|p|..];
      assert b == (p + b)[|p|..];
    }
  }

  /** The documents built from a list have pairwise distinct sources and item
      ids. */
  lemma ListSourcesDistinct(items: seq<Json>)
    ensures forall j, k :: 0 <= j < k < |Documents(Arr(items))| ==>
      SourceOf(Documents(Arr(items))[j].metadata) != SourceOf(Documents(Arr(items))[k].metadata) &&
      ItemIdOf(Documents(Arr(items))[j].metadata) != ItemIdOf(Documents(Arr(items))[k].metadata)
  {
    var docs, ks := Documents(Arr(items)), Kept(ItemExtractions(items), |items|);
    ListDocsShape(items, |items|);
    KeptSpec(ItemExtractions(items), |items|);
    forall j, k | 0 <= j < k < |docs|
      ensures SourceOf(docs[j].metadata) != SourceOf(docs[k].metadata)
      ensures ItemIdOf(docs[j].metadata) != ItemIdOf(docs[k].metadata)
    {
      var ij, ik := ks[j], ks[k];
      assert ij < ik;
      NatToStringInjective(ij, ik);
      var sj, sk := NatToString(ij), NatToString(ik);
      assert ItemIdOf(docs[j].metadata) == sj && ItemIdOf(docs[k].metadata) == sk;
      assert SourceOf(docs[j].metadata) == "document_" + sj;
      assert SourceOf(docs[k].metadata) == "document_" + sk;
      PrefixCancel("document_", sj, sk);
    }
  }

  /** The documents built from an object whose keys are distinct (as every
      parsed dictionary's are) have pairwise distinct sources. */
  lemma ObjSourcesDistinct(members: seq<Member>)
    requires DistinctKeys(members)
    ensures forall j, k :: 0 <= j < k < |Documents(Obj(members))| ==>
      SourceOf(Documents(Obj(members))[j].metadata) != SourceOf(Documents(Obj(members))[k].metadata) &&
      ItemIdOf(Documents(Obj(members))[j].metadata) != ItemIdOf(Documents(Obj(members))[k].metadata)
  {
    ObjDocsShape(members, |members|);
    KeptSpec(MemberExtractions(members), |members|);
  }

  /** A record with a string name and a string description. */
  lemma NameDescRecord(name: string, desc: string)
    ensures Extract(Obj([Member("name", Str(name)), Member("desc", Str(desc))])) ==
      "name: " + name + " | desc: " + desc
  {
    var m1, m2 := Member("name", Str(name)), Member("desc", Str(desc));
    var e1, e2 := Extract(Obj([m1])), Extract(Obj([m2]));
    assert e1 == "name: " + name by {
      SingleMember("name", Str(name));
    }
    assert e2 == "desc: " + desc by {
      SingleMember("desc", Str(desc));
    }
    assert Extract(Obj([m1, m2])) == Combine(e1, e2) by {
      assert [m1, m2] == [m1] + [m2];
      ExtractConcat([m1], [m2]);
    }
    assert Combine(e1, e2) == e1 + " | " + e2;
  }

  /** A list of two records with a name and a description gives two
      documents, one per record, in order, numbered 0 and 1. */
  lemma TwoRecordList(name0: string, desc0: string, name1: string, desc1: string)
    ensures Documents(Arr([
      Obj([Member("name", Str(name0)), Member("desc", Str(desc0))]),
      Obj([Member("name", Str(name1)), Member("desc", Str(desc1))])]))
      == [ListItemDocument(0, "name: " + name0 + " | desc: " + desc0),
          ListItemDocument(1, "name: " + name1 + " | desc: " + desc1)]
  {
    var r0 := Obj([Member("name", Str(name0)), Member("desc", Str(desc0))]);
    var r1 := Obj([Member("name", Str(name1)), Member("desc", Str(desc1))]);
    var c0, c1 := "name: " + name0 + " | desc: " + desc0, "name: " + name1 + " | desc: " + desc1;
    NameDescRecord(name0, desc0);
    NameDescRecord(name1, desc1);
    var items := [r0, r1];
    assert ListDocs(items, 1) == [ListItemDocument(0, c0)] by {
      assert ListDocs(items, 0) == [];
    }
    assert ListDocs(items, 2) == [ListItemDocument(0, c0), ListItemDocument(1, c1)];
  }
}
