/** The two printers of SPINE addresses: the one of the subscription tracker
    (internal/analysis/subscriptions.go) and the one of the message parser
    (internal/parser/spine.go). */
module Addresses {
  import opened Common

  /** A SPINE address; an absent device is the empty string. */
  datatype Address = Address(device: string, entity: seq<nat>, feature: Option<nat>)

  function Digit(d: nat): char
    requires d < 10
  {
    '0' + d as char
  }

  function Decimal(n: nat): (s: string)
    ensures s != "" && '.' !in s
  {
    if n < 10 then [Digit(n)] else Decimal(n / 10) + [Digit(n % 10)]
  }

  /** Decimal numbers joined by dots. */
  function Dotted(parts: seq<nat>): string {
    if parts == [] then ""
    else
      var last := Decimal(parts[|parts| - 1]);
      if |parts| == 1 then last else Dotted(parts[..|parts| - 1]) + "." + last
  }

  /** internal/analysis/subscriptions.go: uintToStr. */
  method UintToStr(n: nat) returns (digits: string)
    ensures digits == Decimal(n)
  {
    if n == 0 {
      return "0";
    }
    digits := "";
    var left := n;
    while left > 0
      invariant Decimal(n) == if left == 0 then digits else Decimal(left) + digits
    {
      digits := [Digit(left % 10)] + digits;
      left := left / 10;
    }
  }

  /** internal/analysis/subscriptions.go: formatFeatureAddr. */
  method FormatFeatureAddr(entity: seq<nat>, feature: nat) returns (s: string)
    ensures s == Dotted(entity + [feature])
  {
    s := "";
    for i := 0 to |entity|
      invariant s == Dotted(entity[..i]) && (i > 0 ==> s != "")
    {
      if i > 0 {
        s := s + ".";
      }
      var e := UintToStr(entity[i]);
      s := s + e;
      assert entity[..i + 1][..i] == entity[..i];
    }
    assert entity[..|entity|] == entity == (entity + [feature])[..|entity|];
    if s != "" {
      s := s + ".";
    }
    var f := UintToStr(feature);
    s := s + f;
  }

  /** strings.Join with a dot. */
  function JoinDots(parts: seq<string>): string {
    if parts == [] then ""
    else if |parts| == 1 then parts[0]
    else JoinDots(parts[..|parts| - 1]) + "." + parts[|parts| - 1]
  }

  lemma {:induction false} JoinDotsOfDecimals(e: seq<nat>, parts: seq<string>)
    requires |parts| == |e| && forall i :: 0 <= i < |e| ==> parts[i] == Decimal(e[i])
    ensures JoinDots(parts) == Dotted(e)
  {
    if |e| > 1 {
      JoinDotsOfDecimals(e[..|e| - 1], parts[..|e| - 1]);
    }
  }

  /** internal/parser/spine.go: entityAddrString. */
  method EntityAddrString(e: seq<nat>) returns (s: string)
    ensures s == Dotted(e)
  {
    if |e| == 0 {
      return "";
    }
    var parts := new string[|e|](_ => "");
    for i := 0 to |e|
      invariant forall j :: 0 <= j < i ==> parts[j] == Decimal(e[j])
    {
      parts[i] := Decimal(e[i]);
    }
    JoinDotsOfDecimals(e, parts[..]);
    return JoinDots(parts[..]);
  }

  /** internal/parser/spine.go: featureAddrString. */
  function FeatureAddrString(f: Option<nat>): string {
    match f case None => "" case Some(n) => Decimal(n)
  }

  /** The feature address the tracker puts together from the two strings of a message
      (internal/analysis/subscriptions.go: matchesSubscriptionNotify). */
  function MessageFeature(entitySource: string, featureSource: string): string {
    if entitySource != "" && featureSource != "" then entitySource + "." + featureSource else featureSource
  }

  /** The feature address of a subscription entry; empty without a feature
      (internal/analysis/subscriptions.go: extractSubscriptionData). */
  function EntryFeature(a: Address): string {
    match a.feature case None => "" case Some(n) => Dotted(a.entity + [n])
  }

  // ------------------------------------------------------------- injectivity

  lemma {:induction false} DecimalInjective(m: nat, n: nat)
    ensures Decimal(m) == Decimal(n) <==> m == n
  {
    var s, t := Decimal(m), Decimal(n);
    if m >= 10 && n >= 10 && s == t {
      assert s[|s| - 1] == t[|t| - 1];
      assert s[..|s| - 1] == Decimal(m / 10) && t[..|t| - 1] == Decimal(n / 10);
      DecimalInjective(m / 10, n / 10);
    }
  }

  /** The number a decimal numeral stands for. */
  function ReadDecimal(s: string): int {
    if s == "" then 0 else 10 * ReadDecimal(s[..|s| - 1]) + (s[|s| - 1] as int - '0' as int)
  }

  /** A printed number reads back as the number, and is written without leading zeros in the digits
      0 to 9. */
  lemma {:induction false} DecimalReadsBack(n: nat)
    ensures ReadDecimal(Decimal(n)) == n
    ensures forall i :: 0 <= i < |Decimal(n)| ==> '0' <= Decimal(n)[i] <= '9'
    ensures n > 0 ==> Decimal(n)[0] != '0'
  {
    var s := Decimal(n);
    if n >= 10 {
      DecimalReadsBack(n / 10);
      assert s[..|s| - 1] == Decimal(n / 10);
    } else {
      assert s[..0] == "";
    }
  }

  /** Text after the last dot is determined. */
  lemma AfterLastDot(a: string, x: string, b: string, y: string)
    requires a + "." + x == b + "." + y && '.' !in x && '.' !in y
    ensures a == b && x == y
  {
    var s, t := a + "." + x, b + "." + y;
    assert forall i :: |a| < i < |s| ==> s[i] == x[i - |a| - 1];
    assert forall i :: |b| < i < |t| ==> t[i] == y[i - |b| - 1];
    assert s[|a|] == '.' && t[|b|] == '.';
    assert |a| == |b|;
    assert s[..|a|] == a && t[..|b|] == b;
    assert s[|a| + 1..] == x && t[|b| + 1..] == y;
  }

  lemma DotInside(parts: seq<nat>)
    ensures '.' in Dotted(parts) <==> |parts| > 1
  {
    if |parts| > 1 {
      assert Dotted(parts)[|Dotted(parts[..|parts| - 1])|] == '.';
    }
  }

  lemma {:induction false} DottedInjective(a: seq<nat>, b: seq<nat>)
    ensures Dotted(a) == Dotted(b) <==> a == b
    decreases |a|
  {
    if Dotted(a) == Dotted(b) && a != [] && b != [] {
      var m, n := a[|a| - 1], b[|b| - 1];
      assert a == a[..|a| - 1] + [m] && b == b[..|b| - 1] + [n];
      if |a| > 1 && |b| > 1 {
        AfterLastDot(Dotted(a[..|a| - 1]), Decimal(m), Dotted(b[..|b| - 1]), Decimal(n));
        DottedInjective(a[..|a| - 1], b[..|b| - 1]);
        DecimalInjective(m, n);
      } else {
        DotInside(a);
        DotInside(b);
        DecimalInjective(m, n);
      }
    }
  }

  /** The two printers agree: the strings of a message put together equal the printed address of a
      subscription exactly when entity list and feature are the same. */
  lemma PrintersAgree(message: Address, entry: Address)
    requires entry.feature.Some?
    ensures MessageFeature(Dotted(message.entity), FeatureAddrString(message.feature)) == EntryFeature(entry)
            <==> message.feature == entry.feature && message.entity == entry.entity
  {
    var parts := entry.entity + [entry.feature.value];
    assert parts[..|entry.entity|] == entry.entity;
    if message.feature.Some? {
      var own := message.entity + [message.feature.value];
      assert own[..|message.entity|] == message.entity;
      DottedNonEmpty(message.entity);
      assert MessageFeature(Dotted(message.entity), FeatureAddrString(message.feature)) == Dotted(own);
      DottedInjective(own, parts);
      assert own == parts ==> own[|own| - 1] == parts[|parts| - 1];
    } else {
      DottedNonEmpty(parts);
    }
  }

  lemma DottedNonEmpty(parts: seq<nat>)
    ensures Dotted(parts) == "" <==> parts == []
  {
  }
}
