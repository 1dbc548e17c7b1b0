/**
 * The request records accepted by the create endpoint, with the bean
 * validation constraints declared on their components as predicates.
 */
module Requests {
  import opened Wrappers
  import opened Entities

  datatype ProductRequest = ProductRequest(
    name: Option<string>,
    quantity: Option<int>,
    price: Option<real>)

  datatype OrderRequest = OrderRequest(
    customerName: Option<string>,
    items: Option<seq<ProductRequest>>,
    totalAmount: Option<real>,
    orderTime: Option<Time>)

  /** Every character is at most U+0020, the characters `String.trim` strips. */
  predicate IsBlank(s: string)
  {
    forall i :: 0 <= i < |s| ==> s[i] <= ' '
  }

  function TrimStart(s: string): string
  {
    if |s| > 0 && s[0] <= ' ' then TrimStart(s[1..]) else s
  }

  function TrimEnd(s: string): string
  {
    if |s| > 0 && s[|s| - 1] <= ' ' then TrimEnd(s[..|s| - 1]) else s
  }

  /** `String.trim`: drops leading and trailing characters up to U+0020. */
  function Trim(s: string): string
  {
    TrimEnd(TrimStart(s))
  }

  /** `@NotBlank`: present, and non-empty once trimmed. */
  predicate NotBlank(s: Option<string>)
  {
    s.Some? && |Trim(s.value)| > 0
  }

  lemma {:induction false} TrimStartBlank(s: string)
    ensures |TrimStart(s)| == 0 <==> IsBlank(s)
    ensures |TrimStart(s)| > 0 ==> TrimStart(s)[0] > ' '
  {
    if |s| > 0 && s[0] <= ' ' {
      TrimStartBlank(s[1..]);
      assert IsBlank(s[1..]) ==> IsBlank(s) by {
        if IsBlank(s[1..]) {
          forall i | 0 <= i < |s| ensures s[i] <= ' ' {
            if i > 0 { assert s[i] == s[1..][i - 1]; }
          }
        }
      }
    }
  }

  lemma {:induction false} TrimEndKeepsVisibleFirst(t: string)
    requires |t| > 0 && t[0] > ' '
    ensures |TrimEnd(t)| > 0
  {
    if t[|t| - 1] <= ' ' {
      TrimEndKeepsVisibleFirst(t[..|t| - 1]);
    }
  }

  /** Some character is above U+0020. */
  predicate HasVisibleChar(s: string)
  {
    exists i :: 0 <= i < |s| && s[i] > ' '
  }

  /** A string passes `@NotBlank` exactly when it holds a character above U+0020. */
  lemma {:induction false} NotBlankIffVisible(s: string)
    ensures NotBlank(Some(s)) <==> HasVisibleChar(s)
  {
    TrimStartBlank(s);
    if |TrimStart(s)| > 0 {
      TrimEndKeepsVisibleFirst(TrimStart(s));
    }
  }

  lemma NotBlankOption(s: Option<string>)
    ensures NotBlank(s) <==> s.Some? && HasVisibleChar(s.value)
  {
    if s.Some? {
      NotBlankIffVisible(s.value);
    }
  }

  /** `@DecimalMin(value = "0.0", inclusive = false)`: absent, or strictly positive. */
  predicate PositiveOrAbsent(x: Option<real>)
  {
    x.None? || x.value > 0.0
  }

  /**
   * The constraints declared on an item request: a name with a visible
   * character, a quantity of at least 1 and a positive price, all present.
   */
  predicate ProductRequestValid(p: ProductRequest): (ok: bool)
    ensures ok <==>
      && p.name.Some? && HasVisibleChar(p.name.value)
      && p.quantity.Some? && p.quantity.value >= 1
      && p.price.Some? && p.price.value > 0.0
  {
    NotBlankOption(p.name);
    && NotBlank(p.name)
    && p.quantity.Some? && p.quantity.value >= 1
    && p.price.Some? && PositiveOrAbsent(p.price)
  }

  /**
   * The constraints declared on an order request. The items list carries no
   * `@Valid`, so the item constraints are not part of it.
   */
  predicate OrderRequestValid(r: OrderRequest): (ok: bool)
    ensures ok <==>
      && r.customerName.Some? && HasVisibleChar(r.customerName.value)
      && r.items.Some? && |r.items.value| > 0
      && (r.totalAmount.None? || r.totalAmount.value > 0.0)
      && r.orderTime.Some?
  {
    NotBlankOption(r.customerName);
    && NotBlank(r.customerName)
    && r.items.Some? && |r.items.value| > 0
    && PositiveOrAbsent(r.totalAmount)
    && r.orderTime.Some?
  }

  /** A price of zero, a quantity of zero and a blank name are each refused. */
  lemma ItemBoundaries(name: string, q: int, x: real)
    ensures !ProductRequestValid(ProductRequest(Some(name), Some(q), Some(0.0)))
    ensures !ProductRequestValid(ProductRequest(Some(name), Some(0), Some(x)))
    ensures !ProductRequestValid(ProductRequest(Some(" \t"), Some(q), Some(x)))
  {
    NotBlankIffVisible(" \t");
  }

  /** A request without a total amount satisfies the declared constraints. */
  lemma AbsentAmountIsValid(r: OrderRequest)
    requires NotBlank(r.customerName) && r.items.Some? && |r.items.value| > 0 && r.orderTime.Some?
    requires r.totalAmount.None?
    ensures OrderRequestValid(r)
  {
  }
}
