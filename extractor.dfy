/** `RAGAssistant._extract_content_from_item`: flattening one JSON item into the
    text of a knowledge-base document. */
module Extractor {
  import opened Text
  import opened JsonValue

  /** The separator between the `key: value` parts of an object. */
  const PartSeparator := " | "

  /** The separator between the elements of a list. */
  const ItemSeparator := ", "

  /** The parts (none or one) an object member `key: value` contributes, where
      `nested` is the extraction of `value` when `value` is itself an object.
      Scalars (booleans included) and lists always contribute; a nested object
      only when its extraction is non-empty; `null` never. */
  function PartOf(key: string, value: Json, nested: string): seq<string> {
    if IsScalar(value) then [key + ": " + PyStr(value)]
    else if value.Arr? then [key + ": " + Join(ItemSeparator, StrItems(value.items))]
    else if value.Obj? && nested != "" then [key + ": " + nested]
    else []
  }

  /** The specification of the extractor: the text one JSON item flattens to.
      An object joins its members' parts; a top-level list reads `Items: `
      followed by its comma-joined elements; a top-level scalar reads
      `Content: str(item)`; a top-level `null` gives `""`. */
  function Extract(item: Json): string
    decreases item, 1, 0
  {
    match item
    case Obj(ms) => Join(PartSeparator, ObjParts(item, |ms|))
    case Arr(items) => "Items: " + Join(ItemSeparator, StrItems(items))
    case Null => ""
    case _ => "Content: " + PyStr(item)
  }

  /** The parts contributed by the first `n` members of the object `obj`, in
      member order. */
  function ObjParts(obj: Json, n: nat): seq<string>
    requires obj.Obj? && n <= |obj.members|
    decreases obj, 0, n
  {
    if n == 0 then [] else ObjParts(obj, n - 1) + MemberPart(obj.members[n - 1])
  }

  /** The parts one member contributes. */
  function MemberPart(m: Member): seq<string>
    decreases m.value, 2, 0
  {
    PartOf(m.key, m.value, if m.value.Obj? then Extract(m.value) else "")
  }

  /** Joins two extractions of objects the way one extraction of their
      concatenated members reads. */
  function Combine(a: string, b: string): string {
    if a == "" then b else if b == "" then a else a + PartSeparator + b
  }

  /** The imperative extractor: walks the members of an object appending one
      part per contributing member, recursing into nested objects, then joins
      the parts. */
  method ExtractContent(item: Json) returns (r: string)
    ensures r == Extract(item)
    decreases item
  {
    var contentParts: seq<string> := [];
    match item {
      case Obj(ms) =>
        var i := 0;
        while i < |ms|
          invariant 0 <= i <= |ms|
          invariant contentParts == ObjParts(item, i)
        {
          var key, value := ms[i].key, ms[i].value;
          if IsScalar(value) {
            contentParts := contentParts + [key + ": " + PyStr(value)];
          } else if value.Arr? {
            contentParts := contentParts + [key + ": " + Join(ItemSeparator, StrItems(value.items))];
          } else if value.Obj? {
            var nested := ExtractContent(value);
            if nested != "" {
              contentParts := contentParts + [key + ": " + nested];
            }
          }
          i := i + 1;
        }
      case Arr(items) =>
        contentParts := contentParts + ["Items: " + Join(ItemSeparator, StrItems(items))];
      case Null =>
      case _ =>
        contentParts := contentParts + ["Content: " + PyStr(item)];
    }
    r := if |contentParts| > 0 then Join(PartSeparator, contentParts) else "";
  }

  /** Every part an object produces is non-empty: it starts with `key: `. */
  lemma {:induction false} ObjPartsNonEmpty(obj: Json, n: nat)
    requires obj.Obj? && n <= |obj.members|
    ensures AllNonEmpty(ObjParts(obj, n))
    ensures |ObjParts(obj, n)| <= n
  {
    if n > 0 {
      ObjPartsNonEmpty(obj, n - 1);
    }
  }

  /** An item whose extraction is empty: `null`, or an object each of whose
      members is `null` or such an object in turn. It holds exactly of the items
      with nothing a part could be made of. */
  predicate Silent(v: Json)
    decreases v
  {
    match v
    case Null => true
    case Obj(ms) => forall k :: 0 <= k < |ms| ==> ms[k].value.Null? || (ms[k].value.Obj? && Silent(ms[k].value))
    case _ => false
  }

  /** The extraction is empty exactly when the item is silent: in particular
      every top-level scalar and every top-level list, even `[]`, produces text,
      and so does every object holding a scalar or a list, even an empty one. */
  lemma {:induction false} ExtractEmptyIff(v: Json)
    ensures Extract(v) == "" <==> Silent(v)
    decreases v, 1
  {
    match v
    case Obj(ms) =>
      ObjPartsNonEmpty(v, |ms|);
      JoinEmptyIff(PartSeparator, ObjParts(v, |ms|));
      ObjPartsEmptyIff(v, |ms|);
    case Arr(_) =>
    case Null =>
    case _ =>
  }

  lemma {:induction false} ObjPartsEmptyIff(obj: Json, n: nat)
    requires obj.Obj? && n <= |obj.members|
    ensures ObjParts(obj, n) == [] <==>
      forall k :: 0 <= k < n ==> obj.members[k].value.Null? || (obj.members[k].value.Obj? && Silent(obj.members[k].value))
    decreases obj, 0, n
  {
    if n > 0 {
      ObjPartsEmptyIff(obj, n - 1);
      var v := obj.members[n - 1].value;
      if v.Obj? {
        ExtractEmptyIff(v);
      }
    }
  }

  /** One more member adds its own part after the earlier ones. */
  lemma ObjPartsStep(obj: Json, n: nat)
    requires obj.Obj? && 0 < n <= |obj.members|
    ensures ObjParts(obj, n) == ObjParts(obj, n - 1) + MemberPart(obj.members[n - 1])
  {
  }

  /** The parts of a sequence of members, each member's after the previous
      ones'. */
  function PartsOf(ms: seq<Member>): seq<string> {
    if ms == [] then [] else PartsOf(ms[..|ms| - 1]) + MemberPart(ms[|ms| - 1])
  }

  /** The parts of the first `n` members depend on those members only. */
  lemma {:induction false} ObjPartsIsPartsOf(obj: Json, n: nat)
    requires obj.Obj? && n <= |obj.members|
    ensures ObjParts(obj, n) == PartsOf(obj.members[..n])
  {
    if n > 0 {
      ObjPartsIsPartsOf(obj, n - 1);
      ObjPartsStep(obj, n);
      var ms := obj.members[..n];
      assert ms[..n - 1] == obj.members[..n - 1];
      assert ms[n - 1] == obj.members[n - 1];
    }
  }

  /** An object extracts to the join of its members' parts. */
  lemma ExtractObj(ms: seq<Member>)
    ensures Extract(Obj(ms)) == Join(PartSeparator, PartsOf(ms))
  {
    ObjPartsIsPartsOf(Obj(ms), |ms|);
    assert ms[..|ms|] == ms;
  }

  /** Every part of a sequence of members is non-empty. */
  lemma {:induction false} PartsOfNonEmpty(ms: seq<Member>)
    ensures AllNonEmpty(PartsOf(ms))
  {
    if ms != [] {
      PartsOfNonEmpty(ms[..|ms| - 1]);
    }
  }

  /** The parts of concatenated members are the parts of each half, in order. */
  lemma {:induction false} PartsOfAppend(p: seq<Member>, q: seq<Member>)
    ensures PartsOf(p + q) == PartsOf(p) + PartsOf(q)
  {
    if q == [] {
      assert p + q == p;
    } else {
      var q0, last := q[..|q| - 1], q[|q| - 1];
      PartsOfAppend(p, q0);
      assert (p + q)[..|p + q| - 1] == p + q0;
      assert (p + q)[|p + q| - 1] == last;
      var a, b, c := PartsOf(p), PartsOf(q0), MemberPart(last);
      assert PartsOf(p + q) == (a + b) + c;
      assert (a + b) + c == a + (b + c);
    }
  }

  /** Object extraction is compositional: the members of `p` followed by those
      of `q` extract to the extraction of `p`, then `" | "`, then that of `q`,
      the separator appearing only between two non-empty texts. So an object
      yields one part per contributing member, in member order. */
  lemma ExtractConcat(p: seq<Member>, q: seq<Member>)
    ensures Extract(Obj(p + q)) == Combine(Extract(Obj(p)), Extract(Obj(q)))
  {
    ExtractObj(p + q);
    ExtractObj(p);
    ExtractObj(q);
    PartsOfAppend(p, q);
    var pp, qq := PartsOf(p), PartsOf(q);
    PartsOfNonEmpty(p);
    PartsOfNonEmpty(q);
    JoinEmptyIff(PartSeparator, pp);
    JoinEmptyIff(PartSeparator, qq);
    JoinAppend(PartSeparator, pp, qq);
  }

  /** What one member contributes, by the kind of its value. */
  lemma SingleMember(key: string, value: Json)
    ensures IsScalar(value) ==> Extract(Obj([Member(key, value)])) == key + ": " + PyStr(value)
    ensures value.Arr? ==>
      Extract(Obj([Member(key, value)])) == key + ": " + Join(ItemSeparator, StrItems(value.items))
    ensures value == Arr([]) ==> Extract(Obj([Member(key, value)])) == key + ": "
    ensures value.Obj? ==>
      Extract(Obj([Member(key, value)])) == (if Extract(value) == "" then "" else key + ": " + Extract(value))
    ensures value.Null? ==> Extract(Obj([Member(key, value)])) == ""
  {
    var m := Member(key, value);
    ExtractObj([m]);
    assert PartsOf([m]) == MemberPart(m);
  }

  /** Appending one member adds its part, if any, after the existing text. */
  lemma ExtractSnoc(p: seq<Member>, m: Member)
    ensures Extract(Obj(p + [m])) == Combine(Extract(Obj(p)), Join(PartSeparator, MemberPart(m)))
  {
    ExtractConcat(p, [m]);
    ExtractObj([m]);
    assert PartsOf([m]) == MemberPart(m);
  }
}
