/**
 The type vocabulary of the tracing language: value categories, sized type
 descriptors, probe kinds and the provider-name classifier.
 */
module Types {

  /** Capacity of a string value in bytes, terminator included. */
  const STRING_SIZE: nat := 64

  /** Bytes in the UTF-8 encoding of one character. */
  function Utf8Width(c: char): (n: nat)
    ensures 1 <= n <= 4
    ensures n == 1 <==> c as int < 0x80
  {
    if c as int < 0x80 then 1
    else if c as int < 0x800 then 2
    else if c as int < 0x1_0000 then 3
    else 4
  }

  /**
   Bytes in the UTF-8 encoding of a string: the length `std::string::size`
   reports for source text, which is read as UTF-8.
   */
  function Utf8Length(s: string): (n: nat)
    ensures |s| <= n <= 4 * |s|
  {
    if s == [] then 0 else Utf8Width(s[0]) + Utf8Length(s[1..])
  }

  /** The byte length equals the character count exactly on ASCII text. */
  lemma {:induction false} Utf8LengthIsCountOnAscii(s: string)
    ensures Utf8Length(s) == |s| <==> forall i :: 0 <= i < |s| ==> s[i] as int < 0x80
  {
    if s != [] {
      Utf8LengthIsCountOnAscii(s[1..]);
      assert forall i :: 1 <= i < |s| ==> s[i] == s[1..][i - 1];
    }
  }

  /** Value categories. `Del` is declared but never produced by the analyser. */
  datatype Type =
    | None
    | Del
    | Integer
    | Quantize
    | Count
    | Stack
    | UStack
    | String
    | Sym
    | USym
    | Cast

  /** Every enumerator, in declaration order. */
  const AllTypes: seq<Type> :=
    [None, Del, Integer, Quantize, Count, Stack, UStack, String, Sym, USym, Cast]

  /**
   A type annotation: a category, a size in bytes and, for `Cast`, the name of
   the struct/union (possibly ending in '*'). The name is not part of equality.
   */
  datatype SizedType = SizedType(ty: Type, size: nat, castType: string)

  /** The two-argument constructor: the struct name is left empty. */
  function Sized(t: Type, size: nat): (r: SizedType)
    ensures r.ty == t && r.size == size && r.castType == ""
  {
    SizedType(t, size, "")
  }

  /** The default-constructed annotation. */
  const Untyped: SizedType := Sized(None, 0)

  /** `SizedType::operator==`: category and size only. */
  predicate SameSizedType(a: SizedType, b: SizedType)
  {
    a.ty == b.ty && a.size == b.size
  }

  lemma SameSizedTypeIsEquivalence(a: SizedType, b: SizedType, c: SizedType)
    ensures SameSizedType(a, a)
    ensures SameSizedType(a, b) <==> SameSizedType(b, a)
    ensures SameSizedType(a, b) && SameSizedType(b, c) ==> SameSizedType(a, c)
  {
  }

  /** Equality is blind to the struct name: renaming never changes the verdict. */
  lemma SameSizedTypeIgnoresCastType(a: SizedType, b: SizedType, n: string, m: string)
    ensures SameSizedType(a, b) <==> SameSizedType(a.(castType := n), b.(castType := m))
    ensures SameSizedType(a, a.(castType := n))
  {
  }

  /** `typestr`: the printed name of a category; `Del` has none (the source aborts). */
  function TypeStr(t: Type): (s: string)
    requires t != Del
    ensures |s| > 0
  {
    match t
    case None => "none"
    case Integer => "integer"
    case Quantize => "quantize"
    case Count => "count"
    case Stack => "stack"
    case UStack => "ustack"
    case String => "string"
    case Sym => "sym"
    case USym => "usym"
    case Cast => "cast"
  }

  /** Distinct printable categories print differently. */
  lemma TypeStrInjective(a: Type, b: Type)
    requires a != Del && b != Del
    ensures TypeStr(a) == TypeStr(b) <==> a == b
  {
    if a != b {
      // the two names already differ in a character or in length
      assert TypeStr(a) != TypeStr(b) by {
        match a
        case None =>
        case Integer =>
        case Quantize =>
        case Count =>
        case Stack =>
        case UStack =>
        case String =>
        case Sym =>
        case USym =>
        case Cast =>
      }
    }
  }

  /** The stream operator for `SizedType` prints the category alone. */
  function ShowSizedType(t: SizedType): string
    requires t.ty != Del
  {
    TypeStr(t.ty)
  }

  lemma ShowSizedTypeIgnoresSizeAndName(a: SizedType, b: SizedType)
    requires a.ty != Del && b.ty != Del
    ensures ShowSizedType(a) == ShowSizedType(b) <==> a.ty == b.ty
  {
    TypeStrInjective(a.ty, b.ty);
  }

  /** Probe kinds; `Invalid` is never produced by the classifier. */
  datatype ProbeType =
    | Invalid
    | KProbe
    | KRetProbe
    | UProbe
    | URetProbe
    | Tracepoint
    | Profile

  /** The eight provider names the classifier accepts. */
  const Providers: set<string> :=
    {"kprobe", "kretprobe", "uprobe", "uretprobe", "BEGIN", "END", "tracepoint", "profile"}

  predicate IsProvider(provider: string)
  {
    provider in Providers
  }

  /** `probetype`; any name outside `Providers` aborts in the source. */
  function ProbeTypeOf(provider: string): (r: ProbeType)
    requires IsProvider(provider)
    ensures r != Invalid
    ensures provider == "BEGIN" || provider == "END" ==> r == UProbe
  {
    if provider == "kprobe" then KProbe
    else if provider == "kretprobe" then KRetProbe
    else if provider == "uprobe" then UProbe
    else if provider == "uretprobe" then URetProbe
    else if provider == "BEGIN" then UProbe
    else if provider == "END" then UProbe
    else if provider == "tracepoint" then Tracepoint
    else Profile
  }

  /** Each kind other than `Invalid` comes from exactly the names listed here. */
  lemma ProbeTypeOfPreimages(provider: string)
    requires IsProvider(provider)
    ensures ProbeTypeOf(provider) == UProbe <==> provider in {"uprobe", "BEGIN", "END"}
    ensures ProbeTypeOf(provider) == KProbe <==> provider == "kprobe"
    ensures ProbeTypeOf(provider) == KRetProbe <==> provider == "kretprobe"
    ensures ProbeTypeOf(provider) == URetProbe <==> provider == "uretprobe"
    ensures ProbeTypeOf(provider) == Tracepoint <==> provider == "tracepoint"
    ensures ProbeTypeOf(provider) == Profile <==> provider == "profile"
  {
  }
}
