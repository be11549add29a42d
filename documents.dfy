/** Documents of the database collections, as the backend sees them: field maps over
    dynamically typed values, identified by object ids, kept in insertion order. */
module Documents {

  datatype Option<+T> = None | Some(value: T)

  datatype Result<+R, +E> = Success(value: R) | Failure(error: E)

  /** A database object id (the source uses Mongo ObjectIds; only identity matters here). */
  type ObjectId = nat

  /** A field value of a stored or projected document. `TextList` is an array of strings
      (guardians, the `unset` list of an update body); `Doc` is an embedded (populated)
      document; `Null` is what a populate of a dangling reference produces. */
  datatype Value =
    | Text(s: string)
    | Number(n: int)
    | Flag(b: bool)
    | Id(id: ObjectId)
    | TextList(items: seq<string>)
    | Doc(fields: map<string, Value>)
    | Null

  type Fields = map<string, Value>

  /** A field selection of a query: an inclusion keeps exactly the named fields,
      an exclusion keeps every other field. */
  datatype Projection = Include(keep: set<string>) | Exclude(drop: set<string>)

  function Project(doc: Fields, p: Projection): (r: Fields)
    ensures r.Keys <= doc.Keys
    ensures forall k :: k in r ==> r[k] == doc[k]
    ensures p.Include? ==> r.Keys == doc.Keys * p.keep
    ensures p.Exclude? ==> r.Keys == doc.Keys - p.drop
  {
    match p
    case Include(keep) => map k | k in doc && k in keep :: doc[k]
    case Exclude(drop) => doc - drop
  }

  /** The first position in `s` whose element satisfies `p`, as a `findOne` in natural order. */
  function FindFirst<T>(s: seq<T>, p: T -> bool): (r: Option<nat>)
    ensures r.Some? ==> r.value < |s| && p(s[r.value])
    ensures r.Some? ==> forall j :: 0 <= j < r.value ==> !p(s[j])
    ensures r.None? <==> forall j :: 0 <= j < |s| ==> !p(s[j])
  {
    if s == [] then None
    else if p(s[0]) then Some(0)
    else match FindFirst(s[1..], p)
      case None => None
      case Some(j) => Some(j + 1)
  }

  /** The elements of `s` that satisfy `p`, in their original order. */
  function Filter<T(!new)>(s: seq<T>, p: T -> bool): (r: seq<T>)
    ensures |r| <= |s|
    ensures forall x :: x in r <==> x in s && p(x)
  {
    if s == [] then []
    else if p(s[0]) then [s[0]] + Filter(s[1..], p)
    else Filter(s[1..], p)
  }

  /** Filtering keeps the relative order: the result is a subsequence of the input. */
  lemma {:induction false} FilterIsSubsequence<T(!new)>(s: seq<T>, p: T -> bool)
    ensures IsSubsequence(Filter(s, p), s)
  {
    if s != [] {
      FilterIsSubsequence(s[1..], p);
      if p(s[0]) {
        assert Filter(s, p)[1..] == Filter(s[1..], p);
      }
    }
  }

  ghost predicate IsSubsequence<T>(a: seq<T>, b: seq<T>)
    decreases |b|
  {
    if a == [] then true
    else if b == [] then false
    else if a[0] == b[0] then IsSubsequence(a[1..], b[1..])
    else IsSubsequence(a, b[1..])
  }
}
