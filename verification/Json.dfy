/**
 * JSON documents, pointers as sequences of tokens, and the patch operations of
 * Common/library/nlohmann/json.hpp (RFC 6902, RFC 6901 for the tokens).
 */
module Json {
  import opened Wrappers

  /** Numbers are one type; members are unordered. */
  datatype Json =
    | JNull
    | JBool(b: bool)
    | JNumber(n: int)
    | JString(s: string)
    | JArray(elems: seq<Json>)
    | JObject(members: map<string, Json>)

  type Path = seq<string>

  const TWO_64 := 0x1_0000_0000_0000_0000

  /** The exceptions a patch can raise, by the library's identifiers. */
  datatype Error =
    | LeadingZero        // 106: an array index begins with 0
    | NotANumber         // 109: an array index does not begin with a digit
    | IndexOutOfRange    // 401
    | PastTheEnd         // 402: "-" where an element must exist
    | KeyNotFound        // 403
    | UnresolvedToken    // 404: the value has no children, or the token is no 64-bit number
    | IndexTooLarge      // 410: the index is the largest of that type
    | NoParent           // 405
    | TestFailed         // 501
    | AssertionFailed    // a primitive value as the parent of an addition

  datatype Lookup = Found(value: Json) | Missing(error: Error)

  /** The document after an operation, which may have been changed before an error was raised. */
  datatype Outcome = Outcome(doc: Json, error: Option<Error>)

  datatype Op =
    | Add(path: Path, value: Json)
    | Remove(path: Path)
    | Replace(path: Path, value: Json)
    | Move(path: Path, from: Path)
    | Copy(path: Path, from: Path)
    | Test(path: Path, value: Json)

  // ------------------------------------------------------------ index tokens

  function Digit(d: nat): char
    requires d < 10
  {
    "0123456789"[d]
  }

  function DigitValue(c: char): Option<nat> {
    if '0' <= c <= '9' then Some((c as int) - ('0' as int)) else None
  }

  /** `to_string` of an array index. */
  function Decimal(n: nat): (s: string)
    ensures s != []
  {
    if n < 10 then [Digit(n)] else Decimal(n / 10) + [Digit(n % 10)]
  }

  function DigitsValue(s: string): Option<nat> {
    if s == [] then Some(0)
    else
      var rest :- DigitsValue(s[..|s| - 1]);
      var d :- DigitValue(s[|s| - 1]);
      Some(10 * rest + d)
  }

  datatype Index = Index(value: nat) | NoIndex(error: Error)

  /** Section 4 of RFC 6901: digits without a leading zero. */
  function ArrayIndex(token: string): Index {
    if |token| > 1 && token[0] == '0' then NoIndex(LeadingZero)
    else if |token| > 1 && !('1' <= token[0] <= '9') then NoIndex(NotANumber)
    else if token == [] then NoIndex(UnresolvedToken)
    else
      match DigitsValue(token)
      case None => NoIndex(UnresolvedToken)
      case Some(n) => Index(n)
  }

  /** The error for an index outside an array: the index itself may be too large for its type. */
  function Outside(i: nat): Error {
    if i >= TWO_64 then UnresolvedToken else if i == TWO_64 - 1 then IndexTooLarge else IndexOutOfRange
  }

  lemma DigitRoundTrip(d: nat)
    requires d < 10
    ensures DigitValue(Digit(d)) == Some(d)
  {
  }

  lemma {:induction false} DecimalShape(n: nat)
    ensures DigitsValue(Decimal(n)) == Some(n)
    ensures (n > 0 ==> Decimal(n)[0] != '0') && forall i :: 0 <= i < |Decimal(n)| ==> '0' <= Decimal(n)[i] <= '9'
    ensures |Decimal(n)| > 1 ==> n > 0
  {
    if n < 10 {
      DigitRoundTrip(n);
      assert Decimal(n)[..0] == [];
    } else {
      var rest, d := Decimal(n / 10), n % 10;
      DecimalShape(n / 10);
      DigitRoundTrip(d);
      var s := Decimal(n);
      assert s == rest + [Digit(d)] && s[..|s| - 1] == rest;
    }
  }

  /** Every index survives being written as a token and read back, and is never "-". */
  lemma IndexRoundTrip(n: nat)
    ensures ArrayIndex(Decimal(n)) == Index(n) && Decimal(n) != "-"
  {
    DecimalShape(n);
    assert '0' <= Decimal(n)[0] <= '9';
  }

  // ------------------------------------------------------ children, lookup

  /** One token of `at`. */
  function Child(doc: Json, token: string): Lookup {
    match doc
    case JObject(m) => if token in m then Found(m[token]) else Missing(KeyNotFound)
    case JArray(es) =>
      if token == "-" then Missing(PastTheEnd)
      else
        (match ArrayIndex(token)
         case NoIndex(e) => Missing(e)
         case Index(i) => if i < |es| then Found(es[i]) else Missing(Outside(i)))
    case _ => Missing(UnresolvedToken)
  }

  function Get(doc: Json, path: Path): Lookup
    decreases |path|
  {
    if path == [] then Found(doc)
    else
      match Child(doc, path[0])
      case Missing(e) => Missing(e)
      case Found(c) => Get(c, path[1..])
  }

  /** Assignment through the reference that `at` with one token returns. */
  function SetChild(doc: Json, token: string, v: Json): Json
    requires Child(doc, token).Found?
  {
    match doc
    case JObject(m) => JObject(m[token := v])
    case JArray(es) => JArray(es[ArrayIndex(token).value := v])
  }

  /** Assignment through the reference that `at` returns. */
  function Set(doc: Json, path: Path, v: Json): Json
    requires Get(doc, path).Found?
    decreases |path|
  {
    if path == [] then v
    else SetChild(doc, path[0], Set(Child(doc, path[0]).value, path[1..], v))
  }

  // -------------------------------------------------------------- operations

  /** The branch of operation_add on the parent found. */
  function AddTo(parent: Json, last: string, v: Json): Outcome {
    match parent
    case JNull => Outcome(JObject(map[last := v]), None)
    case JObject(m) => Outcome(JObject(m[last := v]), None)
    case JArray(es) =>
      if last == "-" then Outcome(JArray(es + [v]), None)
      else
        (match ArrayIndex(last)
         case NoIndex(e) => Outcome(parent, Some(e))
         case Index(i) =>
           if i > |es| then Outcome(parent, Some(Outside(i)))
           else Outcome(JArray(es[..i] + [v] + es[i..]), None))
    case _ => Outcome(parent, Some(AssertionFailed))
  }

  function RemoveFrom(parent: Json, last: string): Outcome {
    match parent
    case JObject(m) =>
      if last in m then Outcome(JObject(m - {last}), None) else Outcome(parent, Some(KeyNotFound))
    case JArray(es) =>
      (match ArrayIndex(last)
       case NoIndex(e) => Outcome(parent, Some(e))
       case Index(i) =>
         if i >= |es| then Outcome(parent, Some(Outside(i)))
         else Outcome(JArray(es[..i] + es[i + 1..]), None))
    case _ => Outcome(parent, None)
  }

  function Parent(path: Path): Path
    requires path != []
  {
    path[..|path| - 1]
  }

  function Last(path: Path): string
    requires path != []
  {
    path[|path| - 1]
  }

  function ApplyAdd(doc: Json, path: Path, v: Json): Outcome {
    if path == [] then Outcome(v, None)
    else if |path| > 1 && Get(doc, path[..1]).Missing? then Outcome(doc, Some(Get(doc, path[..1]).error))
    else
      match Get(doc, Parent(path))
      case Missing(e) => Outcome(doc, Some(e))
      case Found(parent) =>
        var r := AddTo(parent, Last(path), v);
        Outcome(Set(doc, Parent(path), r.doc), r.error)
  }

  function ApplyRemove(doc: Json, path: Path): Outcome {
    if path == [] then Outcome(doc, Some(NoParent))
    else
      match Get(doc, Parent(path))
      case Missing(e) => Outcome(doc, Some(e))
      case Found(parent) =>
        var r := RemoveFrom(parent, Last(path));
        Outcome(Set(doc, Parent(path), r.doc), r.error)
  }

  /** The errors with identifiers 401 to 404 and 410, which a "test" operation catches. */
  predicate OutOfRange(e: Error) {
    e == IndexOutOfRange || e == PastTheEnd || e == KeyNotFound || e == UnresolvedToken || e == IndexTooLarge
  }

  function ApplyOp(doc: Json, op: Op): Outcome {
    match op
    case Add(path, v) => ApplyAdd(doc, path, v)
    case Remove(path) => ApplyRemove(doc, path)
    case Replace(path, v) =>
      (match Get(doc, path)
       case Missing(e) => Outcome(doc, Some(e))
       case Found(_) => Outcome(Set(doc, path, v), None))
    case Move(path, from) =>
      (match Get(doc, from)
       case Missing(e) => Outcome(doc, Some(e))
       case Found(v) =>
         var r := ApplyRemove(doc, from);
         if r.error.Some? then r else ApplyAdd(r.doc, path, v))
    case Copy(path, from) =>
      (match Get(doc, from)
       case Missing(e) => Outcome(doc, Some(e))
       case Found(v) => ApplyAdd(doc, path, v))
    case Test(path, v) =>
      (match Get(doc, path)
       case Missing(e) => Outcome(doc, Some(if OutOfRange(e) then TestFailed else e))
       case Found(w) => Outcome(doc, if w == v then None else Some(TestFailed)))
  }

  /** The operations in turn, up to the first error. */
  function ApplyAll(doc: Json, ops: seq<Op>): Outcome
    decreases |ops|
  {
    if ops == [] then Outcome(doc, None)
    else
      var r := ApplyOp(doc, ops[0]);
      if r.error.Some? then r else ApplyAll(r.doc, ops[1..])
  }
}
