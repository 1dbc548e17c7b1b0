/**
 * The seven-valued order status and its name codec: `toString()` renders a
 * status by its constant name, and `valueOf(s.toUpperCase())` parses one back.
 */
module OrderStatusCodec {
  import opened Wrappers

  datatype OrderStatus = Created | Processing | Shipped | Delivered | Returned | Completed | Cancelled

  /** Every status, in declaration order. */
  const AllStatuses: seq<OrderStatus> :=
    [Created, Processing, Shipped, Delivered, Returned, Completed, Cancelled]

  /** Width of the `status` column of the orders table. */
  const StatusColumnLength: nat := 20

  /**
   * The enum constant's name, which is also what the status column stores:
   * upper-case letters only, and short enough for the column.
   */
  function Name(s: OrderStatus): (r: string)
    ensures 0 < |r| <= StatusColumnLength
    ensures forall i :: 0 <= i < |r| ==> IsUpperLetter(r[i])
  {
    match s
    case Created => "CREATED"
    case Processing => "PROCESSING"
    case Shipped => "SHIPPED"
    case Delivered => "DELIVERED"
    case Returned => "RETURNED"
    case Completed => "COMPLETED"
    case Cancelled => "CANCELLED"
  }

  predicate IsUpperLetter(c: char) { 'A' <= c <= 'Z' }

  predicate IsLowerLetter(c: char) { 'a' <= c <= 'z' }

  function LowerOf(c: char): char
    requires IsUpperLetter(c)
  {
    (c as int + 32) as char
  }

  /** Upper-casing of one character, restricted to ASCII letters. */
  function UpperChar(c: char): char
  {
    if IsLowerLetter(c) then (c as int - 32) as char else c
  }

  function ToUpper(s: string): string
  {
    seq(|s|, i requires 0 <= i < |s| => UpperChar(s[i]))
  }

  /** `s` spells `name` with any mix of upper- and lower-case letters. */
  predicate CaseVariant(s: string, name: string)
  {
    && |s| == |name|
    && forall i :: 0 <= i < |s| ==> s[i] == name[i] || (IsUpperLetter(name[i]) && s[i] == LowerOf(name[i]))
  }

  /** A string that upper-cases to `name` is a case variant of it. */
  lemma {:induction false} UpperMatchIsVariant(s: string, name: string)
    requires ToUpper(s) == name
    ensures CaseVariant(s, name)
  {
    forall i | 0 <= i < |s|
      ensures s[i] == name[i] || (IsUpperLetter(name[i]) && s[i] == LowerOf(name[i]))
    {
      assert name[i] == UpperChar(s[i]);
    }
  }

  /** `OrderStatus.valueOf(s.toUpperCase())`: None where Java throws IllegalArgumentException. */
  function ParseStatus(s: string): (r: Option<OrderStatus>)
    ensures r.Some? ==> CaseVariant(s, Name(r.value))
  {
    var u := ToUpper(s);
    var r :=
      if u == Name(Created) then Some(Created)
      else if u == Name(Processing) then Some(Processing)
      else if u == Name(Shipped) then Some(Shipped)
      else if u == Name(Delivered) then Some(Delivered)
      else if u == Name(Returned) then Some(Returned)
      else if u == Name(Completed) then Some(Completed)
      else if u == Name(Cancelled) then Some(Cancelled)
      else None;
    if r.Some? then UpperMatchIsVariant(s, Name(r.value)); r else r
  }

  /** The seven values are pairwise distinct, and there are no others. */
  lemma SevenStatuses()
    ensures |AllStatuses| == 7
    ensures forall i, j :: 0 <= i < j < |AllStatuses| ==> AllStatuses[i] != AllStatuses[j]
    ensures forall s: OrderStatus :: s in AllStatuses
  {
    forall s: OrderStatus ensures s in AllStatuses {
      var k := match s
        case Created => 0 case Processing => 1 case Shipped => 2 case Delivered => 3
        case Returned => 4 case Completed => 5 case Cancelled => 6;
      assert AllStatuses[k] == s;
    }
  }

  /** Distinct statuses have distinct names, so the stored name identifies the status. */
  lemma NameInjective(a: OrderStatus, b: OrderStatus)
    ensures Name(a) == Name(b) ==> a == b
  {
  }

  /** Completeness of the parser: any case variant of a name parses to that status. */
  lemma {:induction false} ParseCaseVariant(s: string, st: OrderStatus)
    requires CaseVariant(s, Name(st))
    ensures ParseStatus(s) == Some(st)
  {
    var name := Name(st);
    forall i | 0 <= i < |s|
      ensures ToUpper(s)[i] == name[i]
    {
      assert IsUpperLetter(name[i]);
    }
    assert ToUpper(s) == name;
  }

  /** Round trip: parsing the rendered name of a status yields that status. */
  lemma {:induction false} ParseName(st: OrderStatus)
    ensures ParseStatus(Name(st)) == Some(st)
  {
    ParseCaseVariant(Name(st), st);
  }

  /** A string is rejected exactly when it is a case variant of none of the names. */
  lemma {:induction false} ParseRejects(s: string)
    ensures ParseStatus(s).None? <==> forall st: OrderStatus :: !CaseVariant(s, Name(st))
  {
    if ParseStatus(s).None? {
      forall st: OrderStatus ensures !CaseVariant(s, Name(st)) {
        if CaseVariant(s, Name(st)) {
          ParseCaseVariant(s, st);
          assert false;
        }
      }
    }
  }
}
