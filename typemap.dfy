/**
 * `Datatable.syntax_to_type`: a directory attribute-syntax code (the
 * attributeSyntax OIDs 2.5.5.1 to 2.5.5.17, stored as 0x80001 to 0x80011)
 * is first named, and the name then gives the column type and whether the
 * column is indexed. Whatever is not in one of the two tables, including a
 * missing code, types as ("UnknownType", false).
 */
module TypeMapper {
  import opened Common

  const UnknownType: string := "UnknownType"

  /** `attsyntax2type` */
  const AttSyntax2Type: map<int, string> := map[
    0x80001 := "DN",
    0x80002 := "OID",
    0x80003 := "CaseExactString",
    0x80004 := "CaseIgnoreString",
    0x80005 := "IA5String",
    0x80006 := "NumericString",
    0x80007 := "DNWithBinary",
    0x80008 := "Boolean",
    0x80009 := "Enumeration",
    0x8000a := "OctetString",
    0x8000b := "GeneralizedTime",
    0x8000c := "DirectoryString",
    0x8000d := "PresentationAddress",
    0x8000e := "DNWithString",
    0x8000f := "NTSecurityDescriptor",
    0x80010 := "Integer8",
    0x80011 := "Sid"
  ]

  /** `type2type`: only the syntaxes that get a non-default type. */
  const Type2Type: map<string, (string, bool)> := map[
    "DN" := ("Text", false),
    "OID" := ("Text", false),
    "CaseExactString" := ("Text", false),
    "GeneralizedTime" := ("Timestamp", false),
    "Integer8" := ("Int", false),
    "NTSecurityDescriptor" := ("NTSecDesc", true)
  ]

  /** `attsyntax2type.get(s)`; a missing code (`None`) is never a key. */
  function SyntaxName(s: Option<int>): (r: Option<string>)
    ensures r.Some? <==> s.Some? && 0x80001 <= s.value <= 0x80011
  {
    if s.Some? && s.value in AttSyntax2Type then Some(AttSyntax2Type[s.value]) else None
  }

  /** `type2type.get(attsyntax2type.get(s), ("UnknownType", False))` */
  function SyntaxToType(s: Option<int>): (r: (string, bool))
  {
    var name := SyntaxName(s);
    if name.Some? && name.value in Type2Type then Type2Type[name.value] else (UnknownType, false)
  }

  /** The codes of the first table are exactly those of syntaxes 2.5.5.1 to 2.5.5.17. */
  lemma SyntaxCodesAreDirectorySyntaxes(k: int)
    ensures 0x80000 + k in AttSyntax2Type <==> 1 <= k <= 17
  {
  }

  /** The mapper is total: exactly six codes get a type of their own, every
      other code and a missing code fall back to ("UnknownType", false). */
  lemma SyntaxToTypeTable(s: Option<int>)
    ensures s == Some(0x80001) ==> SyntaxToType(s) == ("Text", false)
    ensures s == Some(0x80002) ==> SyntaxToType(s) == ("Text", false)
    ensures s == Some(0x80003) ==> SyntaxToType(s) == ("Text", false)
    ensures s == Some(0x8000b) ==> SyntaxToType(s) == ("Timestamp", false)
    ensures s == Some(0x8000f) ==> SyntaxToType(s) == ("NTSecDesc", true)
    ensures s == Some(0x80010) ==> SyntaxToType(s) == ("Int", false)
    ensures s !in {Some(0x80001), Some(0x80002), Some(0x80003), Some(0x8000b), Some(0x8000f), Some(0x80010)}
            ==> SyntaxToType(s) == (UnknownType, false)
  {
  }

  /** Only security descriptors are indexed, and only they are typed NTSecDesc. */
  lemma IndexedOnlyForSecurityDescriptors(s: Option<int>)
    ensures SyntaxToType(s).1 <==> s == Some(0x8000f)
    ensures SyntaxToType(s).0 == "NTSecDesc" <==> s == Some(0x8000f)
  {
    SyntaxToTypeTable(s);
  }

  /** A syntax that is named but has no entry in the second table (2.5.5.4,
      case-ignore string) still falls back: the two stages are both needed. */
  lemma NamedButUntypedFallsBack()
    ensures SyntaxName(Some(0x80004)) == Some("CaseIgnoreString")
    ensures SyntaxToType(Some(0x80004)) == (UnknownType, false)
    ensures SyntaxToType(None) == (UnknownType, false)
  {
  }
}
