/** The listing filter: an optional price range with independent optional
    bounds, and optional exact-match property type and bedroom count. A
    field the request leaves out is absent from the filter; it never gets a
    stand-in value. `P` is the number type `parseFloat` yields (NaN included);
    the model only moves such numbers around. */
module Filters {
  import opened Wrappers

  datatype PriceRange<P> = PriceRange(gte: Option<P>, lte: Option<P>)

  /** `bedrooms` holds the parseInt result of a non-empty parameter, which may
      be NaN (None): the parameter's presence, not its number, adds the field. */
  datatype Filter<P> = Filter(
    price: Option<PriceRange<P>>,
    propertyType: Option<string>,
    bedrooms: Option<Option<int>>)

  /** Builds the filter from the four raw parameters; the empty string stands
      for an absent or empty parameter, both false in JavaScript. */
  function BuildFilter<P>(
    minPrice: string, maxPrice: string, propertyType: string, bedrooms: string,
    parseInt: string -> Option<int>, parseFloat: string -> P): (f: Filter<P>)
    ensures f.price.Some? <==> minPrice != [] || maxPrice != []
    ensures f.price.Some? ==> (f.price.value.gte.Some? <==> minPrice != [])
    ensures f.price.Some? ==> (f.price.value.lte.Some? <==> maxPrice != [])
    ensures f.price.Some? && f.price.value.gte.Some? ==> f.price.value.gte.value == parseFloat(minPrice)
    ensures f.price.Some? && f.price.value.lte.Some? ==> f.price.value.lte.value == parseFloat(maxPrice)
    ensures f.propertyType.Some? <==> propertyType != []
    ensures f.propertyType.Some? ==> f.propertyType.value == propertyType
    ensures f.bedrooms.Some? <==> bedrooms != []
    ensures f.bedrooms.Some? ==> f.bedrooms.value == parseInt(bedrooms)
    ensures WellFormed(f)
  {
    var price :=
      if minPrice != [] || maxPrice != [] then
        Some(PriceRange(
          if minPrice != [] then Some(parseFloat(minPrice)) else None,
          if maxPrice != [] then Some(parseFloat(maxPrice)) else None))
      else None;
    Filter(
      price,
      if propertyType != [] then Some(propertyType) else None,
      if bedrooms != [] then Some(parseInt(bedrooms)) else None)
  }

  /** A price constraint, when present, carries at least one bound, and a
      property type, when present, is a non-empty string. */
  predicate WellFormed<P>(f: Filter<P>) {
    && (f.price.Some? ==> f.price.value.gte.Some? || f.price.value.lte.Some?)
    && (f.propertyType.Some? ==> f.propertyType.value != [])
  }

  const PriceKey: string := "price"
  const PropertyTypeKey: string := "property_type"
  const BedroomsKey: string := "bedrooms"
  const GteOperator: string := "$gte"
  const LteOperator: string := "$lte"

  /** The value stored under one key of the storage layer's filter document. */
  datatype Constraint<P> =
    | Range(bounds: map<string, P>)
    | Text(text: string)
    | Integer(n: Option<int>)

  /** A filter document as the storage layer receives it. */
  type Document<P> = map<string, Constraint<P>>

  /** The storage layer's filter document for a filter: one key per present
      field, and under "price" one operator per present bound. */
  function ToDocument<P>(f: Filter<P>): (d: Document<P>)
    ensures d.Keys <= {PriceKey, PropertyTypeKey, BedroomsKey}
    ensures PriceKey in d <==> f.price.Some?
    ensures PropertyTypeKey in d <==> f.propertyType.Some?
    ensures BedroomsKey in d <==> f.bedrooms.Some?
    ensures PriceKey in d ==> d[PriceKey].Range? && d[PriceKey].bounds.Keys <= {GteOperator, LteOperator}
  {
    var price: map<string, Constraint<P>> :=
      match f.price
      case None => map[]
      case Some(r) => map[PriceKey := Range(RangeBounds(r))];
    var kind: map<string, Constraint<P>> :=
      match f.propertyType
      case None => map[]
      case Some(t) => map[PropertyTypeKey := Text(t)];
    var rooms: map<string, Constraint<P>> :=
      match f.bedrooms
      case None => map[]
      case Some(n) => map[BedroomsKey := Integer(n)];
    price + kind + rooms
  }

  /** The operator map `{ $gte: …, $lte: … }` of a price range. */
  function RangeBounds<P>(r: PriceRange<P>): (m: map<string, P>)
    ensures GteOperator in m <==> r.gte.Some?
    ensures LteOperator in m <==> r.lte.Some?
    ensures m.Keys <= {GteOperator, LteOperator}
  {
    var lower: map<string, P> := if r.gte.Some? then map[GteOperator := r.gte.value] else map[];
    var upper: map<string, P> := if r.lte.Some? then map[LteOperator := r.lte.value] else map[];
    lower + upper
  }

  function Lookup<K, V>(m: map<K, V>, k: K): Option<V> {
    if k in m then Some(m[k]) else None
  }

  /** Reads a filter back from a document; None for a document no filter produces. */
  function FromDocument<P>(d: Document<P>): Option<Filter<P>> {
    var price: Option<Option<PriceRange<P>>> :=
      if PriceKey !in d then Some(None)
      else match d[PriceKey]
        case Range(m) => Some(Some(PriceRange(Lookup(m, GteOperator), Lookup(m, LteOperator))))
        case _ => None;
    var kind: Option<Option<string>> :=
      if PropertyTypeKey !in d then Some(None)
      else match d[PropertyTypeKey]
        case Text(t) => Some(Some(t))
        case _ => None;
    var rooms: Option<Option<Option<int>>> :=
      if BedroomsKey !in d then Some(None)
      else match d[BedroomsKey]
        case Integer(n) => Some(Some(n))
        case _ => None;
    if price.None? || kind.None? || rooms.None? then None
    else Some(Filter(price.value, kind.value, rooms.value))
  }

  /** The document is a faithful encoding: reading it back gives the filter. */
  lemma DocumentRoundTrip<P>(f: Filter<P>)
    ensures FromDocument(ToDocument(f)) == Some(f)
  {
    var d := ToDocument(f);
    if f.price.Some? {
      var r := f.price.value;
      assert d[PriceKey] == Range(RangeBounds(r));
      assert Lookup(RangeBounds(r), GteOperator) == r.gte;
      assert Lookup(RangeBounds(r), LteOperator) == r.lte;
    }
  }
}
