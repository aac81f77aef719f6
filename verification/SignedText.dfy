/** The text that is signed, written out field by field. */
module SignedText {
  import opened Text
  import opened LegacySigning

  /** A field with its value; a missing value is empty. */
  function Field(name: string, q: Query): string {
    "&" + name + "=" + ValueOf(q, name)
  }

  /** Only this one is left out when it is missing. */
  function OptionalField(name: string, q: Query): string {
    if name in q then Field(name, q) else ""
  }

  lemma OneField(name: string, q: Query)
    ensures name != "format" ==> Segment(q, [name]) == Field(name, q)
    ensures name == "format" ==> Segment(q, [name]) == OptionalField(name, q)
  {
    if name != "format" || name in q {
      SegmentOfOne(q, name);
    } else {
      assert [name][..0] == [] && Parts(q, [name]) == [];
    }
  }

  lemma FrontFields(q: Query)
    ensures Segment(q, ["_abi", "_index", "_ipv", "_model"])
         == Field("_abi", q) + Field("_index", q) + Field("_ipv", q) + Field("_model", q)
  {
    SegmentOfSum(q, ["_abi"], ["_index"]);
    SegmentOfSum(q, ["_abi"] + ["_index"], ["_ipv"]);
    SegmentOfSum(q, ["_abi"] + ["_index"] + ["_ipv"], ["_model"]);
    OneField("_abi", q);
    OneField("_index", q);
    OneField("_ipv", q);
    OneField("_model", q);
    assert ["_abi"] + ["_index"] + ["_ipv"] + ["_model"] == ["_abi", "_index", "_ipv", "_model"];
  }

  lemma BackFields(q: Query)
    ensures Segment(q, ["_platform", "_timestamp", "format", "package"])
         == Field("_platform", q) + Field("_timestamp", q) + OptionalField("format", q) + Field("package", q)
  {
    SegmentOfSum(q, ["_platform"], ["_timestamp"]);
    SegmentOfSum(q, ["_platform"] + ["_timestamp"], ["format"]);
    SegmentOfSum(q, ["_platform"] + ["_timestamp"] + ["format"], ["package"]);
    OneField("_platform", q);
    OneField("_timestamp", q);
    OneField("format", q);
    OneField("package", q);
    assert |"package"| == 7 && |"format"| == 6 && |"_platform"| == 9 && |"_timestamp"| == 10;
    assert ["_platform"] + ["_timestamp"] + ["format"] + ["package"]
        == ["_platform", "_timestamp", "format", "package"];
  }

  /** The whole text, behind a leading mark. */
  lemma PayloadText(q: Query)
    ensures "&" + Payload(q)
         == Field("_abi", q) + Field("_index", q) + Field("_ipv", q) + Field("_model", q)
            + (Field("_platform", q) + Field("_timestamp", q) + OptionalField("format", q) + Field("package", q))
            + "!rilegoule#"
  {
    FrontFields(q);
    BackFields(q);
    assert FIELDS == ["_abi", "_index", "_ipv", "_model"] + ["_platform", "_timestamp", "format", "package"];
    SegmentOfSum(q, ["_abi", "_index", "_ipv", "_model"], ["_platform", "_timestamp", "format", "package"]);
    PackageIsLast(q);
    GlueOfJoin(Parts(q, FIELDS));
    assert "&" + Payload(q) == Segment(q, FIELDS) + "!rilegoule#";
  }
}
