/**
 * The mapping core of the FoundationOne XML to CNV converter: copy-number
 * alteration records, as the XML parser leaves them, become flat copy-number
 * records with a derived status, a split genomic position and a small bag of
 * attributes.
 *
 * The parser's dictionaries are modelled by datatypes: a key that the code
 * tests for presence is an `Option`, a key that it simply reads is a plain
 * field, and the ambiguous arity of the `copy-number-alteration` child (a
 * single mapping for one element, a list for several) is a datatype case.
 */
module Convert {
  import opened Wrappers
  import opened PyStr
  import opened Seqs

  // ---------------------------------------------------------------------
  // Data model
  // ---------------------------------------------------------------------

  /** One `copy-number-alteration` element, keyed by its XML attributes. */
  datatype RawAlteration = RawAlteration(
    gene: string,                   // @gene
    position: string,               // @position, "chromosome:start-end"
    copyNumber: string,             // @copy-number, kept as its text
    equivocal: string,              // @equivocal, "true" or "false"
    copyType: Option<string>,       // @type
    numberOfExons: Option<string>,  // @number-of-exons
    sample: Option<string>)         // dna-evidence/@sample

  /** The value under `copy-number-alteration`: absent, one mapping, or a list. */
  datatype AlterationList =
    | NoChild
    | Single(alteration: RawAlteration)
    | Many(alterations: seq<RawAlteration>)

  /** The value under `copy-number-alterations` in the variant report. */
  datatype AlterationsSection =
    | Absent
    | NoneValue
    | Present(child: AlterationList)

  /** The `variant-report` element; only the section the driver reads. */
  datatype VariantReport = VariantReport(copyNumberAlterations: AlterationsSection)

  /** A value of the attributes bag: a copied string or the literal `True`. */
  datatype AttrValue = Text(text: string) | Flag(flag: bool)

  type Attributes = map<string, AttrValue>

  /** The chromosome and the two range ends of a position, all as text. */
  datatype Position = Position(chromosome: string, startPosition: string, endPosition: string)

  /** One output record of `extract_copy_numbers`. */
  datatype CopyNumber = CopyNumber(
    sampleId: string,
    gene: string,
    copyNumber: string,
    status: string,
    chromosome: string,
    startPosition: string,
    endPosition: string,
    attributes: Attributes)

  /** The result `{'CopyNumbers': [...]}`. */
  datatype CopyNumberList = CopyNumberList(copyNumbers: seq<CopyNumber>)

  // Type tags of the report and the status codes derived from them.
  const TypeAmplification := "amplification"
  const TypeLoss := "loss"
  const TypePartialAmplification := "partial amplification"

  const StatusGain := "gain"
  const StatusAmplification := "amplification"
  const StatusLoss := "loss"
  const StatusPartialLoss := "partial_loss"

  const NumberOfExonsKey := "number-of-exons"
  const PartialAmplificationKey := "partial amplification"

  // ---------------------------------------------------------------------
  // calculate_status
  // ---------------------------------------------------------------------

  /**
   * The status code of an alteration. The contract reads the decision table
   * backwards: for every code it gives exactly the inputs that produce it.
   */
  function CalculateStatus(equivocal: string, copyType: string): (status: string)
    ensures status in {StatusGain, StatusAmplification, StatusLoss, StatusPartialLoss, ""}
    ensures status == "" <==>
      copyType !in {TypeAmplification, TypeLoss, TypePartialAmplification}
    ensures status == StatusGain <==>
      copyType == TypePartialAmplification || (copyType == TypeAmplification && equivocal == "true")
    ensures status == StatusAmplification <==> copyType == TypeAmplification && equivocal != "true"
    ensures status == StatusLoss <==> copyType == TypeLoss && equivocal != "true"
    ensures status == StatusPartialLoss <==> copyType == TypeLoss && equivocal == "true"
  {
    if copyType == TypeAmplification then
      if equivocal == "true" then StatusGain else StatusAmplification
    else if copyType == TypeLoss then
      if equivocal == "true" then StatusPartialLoss else StatusLoss
    else if copyType == TypePartialAmplification then
      StatusGain
    else
      ""
  }

  /** A partial amplification is a gain whatever the equivocal flag says. */
  lemma PartialAmplificationIgnoresEquivocal(e1: string, e2: string)
    ensures CalculateStatus(e1, TypePartialAmplification) == CalculateStatus(e2, TypePartialAmplification) == StatusGain
  {
  }

  /** The equivocal flag matters only through whether it is exactly "true". */
  lemma StatusDependsOnlyOnTrueFlag(e1: string, e2: string, copyType: string)
    requires (e1 == "true") == (e2 == "true")
    ensures CalculateStatus(e1, copyType) == CalculateStatus(e2, copyType)
  {
  }

  /** The cases of the unit test of `calculate_status`. */
  lemma StatusTestCases()
    ensures CalculateStatus("true", "amplification") == "gain"
    ensures CalculateStatus("false", "amplification") == "amplification"
    ensures CalculateStatus("true", "loss") == "partial_loss"
    ensures CalculateStatus("false", "loss") == "loss"
    ensures CalculateStatus("false", "partial amplification") == "gain"
    ensures CalculateStatus("true", "partial amplification") == "gain"
    ensures CalculateStatus("true", "fred") == ""
  {
  }

  // ---------------------------------------------------------------------
  // gather_attributes
  // ---------------------------------------------------------------------

  /**
   * The attributes bag of an alteration: the exon count when the record has
   * one, and the flag `partial amplification` when that is its type.
   */
  function GatherAttributes(alteration: RawAlteration): (attributes: Attributes)
    ensures attributes.Keys <= {NumberOfExonsKey, PartialAmplificationKey}
    ensures NumberOfExonsKey in attributes <==> alteration.numberOfExons.Some?
    ensures NumberOfExonsKey in attributes ==>
      attributes[NumberOfExonsKey] == Text(alteration.numberOfExons.value)
    ensures PartialAmplificationKey in attributes <==>
      alteration.copyType == Some(TypePartialAmplification)
    ensures PartialAmplificationKey in attributes ==>
      attributes[PartialAmplificationKey] == Flag(true)
  {
    var withExons: Attributes :=
      if alteration.numberOfExons.Some? then map[NumberOfExonsKey := Text(alteration.numberOfExons.value)]
      else map[];
    if alteration.copyType.Some? && alteration.copyType.value == TypePartialAmplification then
      withExons[PartialAmplificationKey := Flag(true)]
    else
      withExons
  }

  /**
   * Giving a record an exon count adds exactly the `number-of-exons` key to
   * its attributes and leaves every other entry as it was.
   */
  lemma ExonCountAddsOnlyItsKey(alteration: RawAlteration, exons: string)
    ensures GatherAttributes(alteration.(numberOfExons := Some(exons))) ==
      GatherAttributes(alteration.(numberOfExons := None))[NumberOfExonsKey := Text(exons)]
  {
    var with := GatherAttributes(alteration.(numberOfExons := Some(exons)));
    var without := GatherAttributes(alteration.(numberOfExons := None));
    assert with.Keys == without.Keys + {NumberOfExonsKey};
  }

  /** With neither an exon count nor a partial amplification the bag is empty. */
  lemma AttributesEmptyWhenNothingToRecord(alteration: RawAlteration)
    requires alteration.numberOfExons.None?
    requires alteration.copyType != Some(TypePartialAmplification)
    ensures GatherAttributes(alteration) == map[]
  {
    assert GatherAttributes(alteration).Keys == {};
  }

  // ---------------------------------------------------------------------
  // Position splitting: `position.split(":")` then `.split("-")`
  // ---------------------------------------------------------------------

  /** The indexing `[1]` of both splits succeeds (no `IndexError`). */
  predicate PositionSplittable(position: string) {
    var parts := Split(position, ':');
    |parts| >= 2 && |Split(parts[1], '-')| >= 2
  }

  /** Chromosome, start and end, as the driver takes them from the splits. */
  function ParsePosition(position: string): Position
    requires PositionSplittable(position)
  {
    var range := Split(position, ':')[1];
    Position(Split(position, ':')[0], Split(range, '-')[0], Split(range, '-')[1])
  }

  /**
   * `pos` is what the splits give for `position`: the three fields are
   * separator-free, `position` starts with "chromosome:start-end", and that
   * prefix is the whole string or is followed by a further ':' or '-'.
   */
  ghost predicate SplitsInto(position: string, pos: Position) {
    var c, s, e := pos.chromosome, pos.startPosition, pos.endPosition;
    var i, j := |c| + 1, |c| + |s| + 2;
    var n := j + |e|;
    && ':' !in c && ':' !in s && '-' !in s && ':' !in e && '-' !in e
    && n <= |position|
    && position[..|c|] == c && position[|c|] == ':'
    && position[i..i + |s|] == s && position[i + |s|] == '-'
    && position[j..n] == e
    && (n < |position| ==> position[n] == ':' || position[n] == '-')
  }

  /**
   * The splits succeed exactly when there is a ':' and a '-' after it. The
   * first clause is `SeveralPiecesIffSeparator` for ':'; it is repeated so
   * that the index `[1]` in the second clause is well-formed.
   */
  lemma PositionSplittableIff(position: string)
    ensures |Split(position, ':')| >= 2 <==> ':' in position
    ensures PositionSplittable(position) <==>
      ':' in position && '-' in Split(position, ':')[1]
  {
    SeveralPiecesIffSeparator(position, ':');
    if ':' in position {
      SeveralPiecesIffSeparator(Split(position, ':')[1], '-');
    }
  }

  /**
   * "c:s-e" followed by nothing, or by a further ':' or '-', splits into
   * the fields c, s and e.
   */
  lemma SplitsIntoOfFields(c: string, s: string, e: string, tail: string)
    requires ':' !in c && ':' !in s && '-' !in s && ':' !in e && '-' !in e
    requires tail == [] || tail[0] == ':' || tail[0] == '-'
    ensures SplitsInto(c + [':'] + s + ['-'] + e + tail, Position(c, s, e))
  {
    var position := c + [':'] + s + ['-'] + e + tail;
    var i, j := |c| + 1, |c| + |s| + 2;
    assert position[..|c|] == c;
    assert position[i..i + |s|] == s;
    assert position[j..j + |e|] == e;
    assert j + |e| < |position| ==> position[j + |e|] == tail[0];
  }

  /** What the driver takes from a position is described by `SplitsInto`. */
  lemma ParsePositionSplits(position: string)
    requires PositionSplittable(position)
    ensures SplitsInto(position, ParsePosition(position))
  {
    var parts := Split(position, ':');
    var c, range := parts[0], parts[1];
    var rp := Split(range, '-');
    var s, e := rp[0], rp[1];
    SplitJoinsBack(position, ':');
    SplitJoinsBack(range, '-');
    var t1 := JoinAfterSecond(parts, ':');
    var t2 := JoinAfterSecond(rp, '-');
    JoinFirstTwo(parts, ':');
    JoinFirstTwo(rp, '-');
    assert ':' !in s && '-' !in s && ':' !in e && '-' !in e by {
      assert range == s + ['-'] + e + t2;
    }
    assert position == c + [':'] + s + ['-'] + e + (t2 + t1);
    SplitsIntoOfFields(c, s, e, t2 + t1);
  }

  /** Fields satisfying `SplitsInto` are determined by the position. */
  lemma SplitsIntoUnique(position: string, p1: Position, p2: Position)
    requires SplitsInto(position, p1) && SplitsInto(position, p2)
    ensures p1 == p2
  {
    var c1, s1 := p1.chromosome, p1.startPosition;
    SameFieldAt(position, 0, c1, p2.chromosome, {':'});
    SameFieldAt(position, |c1| + 1, s1, p2.startPosition, {'-'});
    SameFieldAt(position, |c1| + |s1| + 2, p1.endPosition, p2.endPosition, {':', '-'});
  }

  /**
   * A position "c:s-e" with one ':' and one '-' after it splits into
   * chromosome c, start s and end e.
   */
  lemma ParsePositionOfParts(c: string, s: string, e: string)
    requires ':' !in c && ':' !in s && '-' !in s && ':' !in e && '-' !in e
    ensures PositionSplittable(c + ":" + s + "-" + e)
    ensures ParsePosition(c + ":" + s + "-" + e) == Position(c, s, e)
  {
    var range := s + "-" + e;
    assert FreeOf([c, range], ':');
    assert c + ":" + s + "-" + e == Join([c, range], ':');
    SplitJoin([c, range], ':');
    assert FreeOf([s, e], '-');
    assert range == Join([s, e], '-');
    SplitJoin([s, e], '-');
  }

  /** The position of the first record of the unit-test report. */
  lemma ParsePositionExample(position: string)
    requires position == "chr12:58093932-58188144"
    ensures PositionSplittable(position)
    ensures ParsePosition(position) == Position("chr12", "58093932", "58188144")
  {
    var c, s, e := "chr12", "58093932", "58188144";
    assert position == c + ":" + s + "-" + e;
    ParsePositionOfParts(c, s, e);
  }

  // ---------------------------------------------------------------------
  // extract_copy_numbers
  // ---------------------------------------------------------------------

  /**
   * The records the driver walks: none when the section or its child is
   * missing or `None`, one for a single mapping, all of a list in order.
   */
  function Alterations(section: AlterationsSection): seq<RawAlteration> {
    match section
    case Present(Single(alteration)) => [alteration]
    case Present(Many(alterations)) => alterations
    case _ => []
  }

  /** The keys and the position format the record literal needs. */
  predicate Convertible(alteration: RawAlteration) {
    && alteration.copyType.Some?
    && alteration.sample.Some?
    && PositionSplittable(alteration.position)
  }

  predicate AllConvertible(alterations: seq<RawAlteration>) {
    forall i :: 0 <= i < |alterations| ==> Convertible(alterations[i])
  }

  /** The output record built from one alteration. */
  function ToCopyNumber(alteration: RawAlteration): CopyNumber
    requires Convertible(alteration)
  {
    var pos := ParsePosition(alteration.position);
    CopyNumber(
      alteration.sample.value,
      alteration.gene,
      alteration.copyNumber,
      CalculateStatus(alteration.equivocal, alteration.copyType.value),
      pos.chromosome,
      pos.startPosition,
      pos.endPosition,
      GatherAttributes(alteration))
  }

  /** What `extract_copy_numbers` returns for a variant report. */
  function Extract(report: VariantReport): CopyNumberList
    requires AllConvertible(Alterations(report.copyNumberAlterations))
  {
    CopyNumberList(MapSeq(ToCopyNumber, Alterations(report.copyNumberAlterations)))
  }

  /** Converting one more record of a list appends its output record. */
  lemma ConvertedExtends(alterations: seq<RawAlteration>, i: nat)
    requires AllConvertible(alterations) && i < |alterations|
    ensures AllConvertible(alterations[..i]) && AllConvertible(alterations[..i + 1])
    ensures MapSeq(ToCopyNumber, alterations[..i + 1]) ==
      MapSeq(ToCopyNumber, alterations[..i]) + [ToCopyNumber(alterations[i])]
  {
    assert alterations[..i + 1] == alterations[..i] + [alterations[i]];
    MapSeqAppend(ToCopyNumber, alterations[..i], [alterations[i]]);
  }

  /**
   * The driver, as the source writes it: a loop that appends one record per
   * alteration to the list under `CopyNumbers`.
   */
  method ExtractCopyNumbers(report: VariantReport) returns (result: CopyNumberList)
    requires AllConvertible(Alterations(report.copyNumberAlterations))
    ensures result == Extract(report)
  {
    var copyNumberList: seq<CopyNumber> := [];
    var section := report.copyNumberAlterations;
    if section.Present? && !section.child.NoChild? {
      var variants := section.child;
      var copyNumbers := if variants.Many? then variants.alterations else [variants.alteration];
      assert copyNumbers == Alterations(section);
      var i := 0;
      while i < |copyNumbers|
        invariant 0 <= i <= |copyNumbers|
        invariant copyNumberList == MapSeq(ToCopyNumber, copyNumbers[..i])
      {
        var copyNumberValue := ToCopyNumber(copyNumbers[i]);
        ConvertedExtends(copyNumbers, i);
        copyNumberList := copyNumberList + [copyNumberValue];
        i := i + 1;
      }
      assert copyNumbers[..i] == copyNumbers;
    }
    result := CopyNumberList(copyNumberList);
  }

  /** A missing or `None` section, or one without a child, gives no records. */
  lemma ExtractEmptyWithoutAlterations(report: VariantReport)
    requires report.copyNumberAlterations.Present? ==> report.copyNumberAlterations.child.NoChild?
    ensures Extract(report).copyNumbers == []
  {
  }

  /** A single child mapping is handled as a one-element list. */
  lemma ExtractSingleAsList(alteration: RawAlteration)
    requires Convertible(alteration)
    ensures Extract(VariantReport(Present(Single(alteration)))) ==
      Extract(VariantReport(Present(Many([alteration]))))
  {
  }

  /**
   * One output record per input record, in input order, each built from that
   * same record alone: its own sample id, gene, copy number, the status of
   * its own flag and type, the split of its own position and its own
   * attributes.
   */
  lemma ExtractPreservesOrder(report: VariantReport)
    requires AllConvertible(Alterations(report.copyNumberAlterations))
    ensures var alts, out := Alterations(report.copyNumberAlterations), Extract(report).copyNumbers;
      && |out| == |alts|
      && forall k :: 0 <= k < |alts| ==>
        && out[k].sampleId == alts[k].sample.value
        && out[k].gene == alts[k].gene
        && out[k].copyNumber == alts[k].copyNumber
        && out[k].status == CalculateStatus(alts[k].equivocal, alts[k].copyType.value)
        && SplitsInto(alts[k].position, Position(out[k].chromosome, out[k].startPosition, out[k].endPosition))
        && out[k].attributes == GatherAttributes(alts[k])
  {
    var alts := Alterations(report.copyNumberAlterations);
    MapSeqAt(ToCopyNumber, alts);
    forall k | 0 <= k < |alts|
      ensures SplitsInto(alts[k].position, ParsePosition(alts[k].position))
    {
      ParsePositionSplits(alts[k].position);
    }
  }

  /** Records before and after one another in a list stay in that order. */
  lemma ExtractConcat(xs: seq<RawAlteration>, ys: seq<RawAlteration>)
    requires AllConvertible(xs) && AllConvertible(ys)
    ensures AllConvertible(xs + ys)
    ensures Extract(VariantReport(Present(Many(xs + ys)))).copyNumbers ==
      Extract(VariantReport(Present(Many(xs)))).copyNumbers + Extract(VariantReport(Present(Many(ys)))).copyNumbers
  {
    MapSeqAppend(ToCopyNumber, xs, ys);
  }

  /** A record whose position reads "c:s-e" converts field by field. */
  lemma ToCopyNumberOfParts(alteration: RawAlteration, c: string, s: string, e: string)
    requires alteration.copyType.Some? && alteration.sample.Some?
    requires alteration.position == c + ":" + s + "-" + e
    requires ':' !in c && ':' !in s && '-' !in s && ':' !in e && '-' !in e
    ensures Convertible(alteration)
    ensures ToCopyNumber(alteration) == CopyNumber(alteration.sample.value, alteration.gene,
      alteration.copyNumber, CalculateStatus(alteration.equivocal, alteration.copyType.value),
      c, s, e, GatherAttributes(alteration))
  {
    ParsePositionOfParts(c, s, e);
  }

  /**
   * The end-to-end case of the unit test: five records typed amplification,
   * amplification (equivocal), loss, loss (equivocal) and partial
   * amplification (equivocal) give five records, in that order, with the
   * statuses amplification, gain, loss, partial_loss and gain.
   */
  lemma ExtractFiveStatuses(report: VariantReport)
    requires report.copyNumberAlterations.Present? && report.copyNumberAlterations.child.Many?
    requires var alts := report.copyNumberAlterations.child.alterations;
      && |alts| == 5 && AllConvertible(alts)
      && alts[0].copyType == Some("amplification") && alts[0].equivocal == "false"
      && alts[1].copyType == Some("amplification") && alts[1].equivocal == "true"
      && alts[2].copyType == Some("loss") && alts[2].equivocal == "false"
      && alts[3].copyType == Some("loss") && alts[3].equivocal == "true"
      && alts[4].copyType == Some("partial amplification") && alts[4].equivocal == "true"
    ensures var out := Extract(report).copyNumbers;
      && |out| == 5
      && out[0].status == "amplification" && out[1].status == "gain" && out[2].status == "loss"
      && out[3].status == "partial_loss" && out[4].status == "gain"
  {
    MapSeqAt(ToCopyNumber, report.copyNumberAlterations.child.alterations);
  }
}
