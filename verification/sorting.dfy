/** The `sort` query parameter, `<field>:<direction>`, and the one-entry
    sort document handed to the storage layer. */
module Sorting {
  import opened Strings

  const FieldSeparator: char := ':'
  /** The only direction token that selects descending order (case-sensitive). */
  const DescToken: string := "desc"
  /** The token written for ascending order; any token other than DescToken reads as ascending. */
  const AscToken: string := "asc"

  datatype Direction = Asc | Desc

  /** The storage layer's encoding of a direction: 1 ascending, -1 descending. */
  function DirectionValue(d: Direction): (v: int)
    ensures v == 1 || v == -1
    ensures v == -1 <==> d == Desc
  {
    match d
    case Asc => 1
    case Desc => -1
  }

  /** Natural: no sort requested, the store's own order. By: one field, one direction. */
  datatype SortSpec = Natural | By(field: string, dir: Direction)

  /** A sort parameter; the empty string stands for an absent or empty one,
      both of which JavaScript treats as false. The field is the first
      ':'-segment, the direction the second, and further segments are ignored. */
  function ParseSort(s: string): (spec: SortSpec)
    ensures spec.Natural? <==> s == []
  {
    if s == [] then Natural
    else
      var parts := Split(s, FieldSeparator);
      var field := parts[0];
      var dir := if |parts| > 1 && parts[1] == DescToken then Desc else Asc;
      By(field, dir)
  }

  /** The one key that assigning into a plain JavaScript object does not
      create: `obj["__proto__"] = n` goes to the prototype setter, which
      ignores a value that is not an object, so the object stays empty. */
  const ProtoKey: string := "__proto__"

  /** The sort document `{ field: direction }` as the handler's plain object
      ends up: empty for natural order, and also empty for the field
      "__proto__", whose assignment does not add a key. */
  function SortDocument(spec: SortSpec): (doc: map<string, int>)
    ensures spec.Natural? ==> doc == map[]
    ensures spec.By? && spec.field == ProtoKey ==> doc == map[]
    ensures spec.By? && spec.field != ProtoKey ==>
      doc.Keys == {spec.field} && doc[spec.field] == DirectionValue(spec.dir)
  {
    match spec
    case Natural => map[]
    case By(field, dir) => if field == ProtoKey then map[] else map[field := DirectionValue(dir)]
  }

  /** The field is the text of `s` before its first ':' (all of `s` when it has none). */
  lemma SortField(s: string)
    requires s != []
    ensures var f := ParseSort(s).field;
      |f| <= |s| && s[..|f|] == f && SegmentEnd(s, FieldSeparator, |f|)
  {
    FirstSegment(s, FieldSeparator);
  }

  /** Descending order is selected exactly when the field is followed by
      ":desc" and then by the end of `s` or another ':'. A missing direction
      and any other token ("DESC", "descending", "asc", "") read as ascending. */
  lemma SortDirection(s: string)
    requires s != []
    ensures var spec := ParseSort(s);
      var head := spec.field + [FieldSeparator] + DescToken;
      spec.dir == Desc <==>
        (|head| <= |s| && s[..|head|] == head && (|head| == |s| || s[|head|] == FieldSeparator))
  {
    SecondSegmentIs(s, FieldSeparator, DescToken);
  }

  /** The sort document of a `sort` parameter: empty for an absent or empty
      parameter and for the field "__proto__"; otherwise exactly one key, the
      text before the first ':', mapped to -1 when ":desc" follows it (then
      the end or another ':') and to 1 in every other case. */
  lemma SortParameter(s: string)
    ensures s == [] ==> SortDocument(ParseSort(s)) == map[]
    ensures s != [] ==>
      var f := ParseSort(s).field;
      var doc := SortDocument(ParseSort(s));
      var head := f + [FieldSeparator] + DescToken;
      var desc := |head| <= |s| && s[..|head|] == head && (|head| == |s| || s[|head|] == FieldSeparator);
      && |f| <= |s| && s[..|f|] == f && SegmentEnd(s, FieldSeparator, |f|)
      && (f == ProtoKey ==> doc == map[])
      && (f != ProtoKey ==> doc.Keys == {f})
      && (f != ProtoKey && desc ==> doc[f] == -1)
      && (f != ProtoKey && !desc ==> doc[f] == 1)
  {
    if s != [] {
      SortField(s);
      SortDirection(s);
    }
  }

  /** The text a client writes for a sort spec. */
  function RenderSort(spec: SortSpec): string {
    match spec
    case Natural => []
    case By(field, dir) => field + [FieldSeparator] + (if dir == Desc then DescToken else AscToken)
  }

  /** Parsing a rendered spec gives it back, for any field without ':'. */
  lemma SortRoundTrip(spec: SortSpec)
    requires spec.By? ==> FieldSeparator !in spec.field
    ensures ParseSort(RenderSort(spec)) == spec
  {
    if spec.By? {
      var token := if spec.dir == Desc then DescToken else AscToken;
      var parts := [spec.field, token];
      assert Separated(parts, FieldSeparator);
      assert Join(parts, FieldSeparator) == RenderSort(spec);
      SplitJoin(parts, FieldSeparator);
    }
  }
}
