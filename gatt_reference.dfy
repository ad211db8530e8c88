/**
 * The reference GATT listing the firmware compares the module's reply
 * against, and the table of Fletcher-16 checksums kept in its place.
 */
module GattReference {
  import opened CTypes
  import opened Fletcher

  // Each reference line is written field by field; the concatenation is
  // the whole line, exactly as the firmware stores it.
  const Line1: Line := "ID=01," + "UUID=0x1818"
  const Line2: Line := "  ID=01," + "UUID=0x2A65," + "PROPERTIES=0x02," + "MIN_LEN=4," + "MAX_LEN=4," + "DATATYPE=0," + "VALUE=0"
  const Line3: Line := "  ID=02," + "UUID=0x2A63," + "PROPERTIES=0x10," + "MIN_LEN=6," + "MAX_LEN=6," + "DATATYPE=0," + "VALUE=00-00-00-00-00-00"
  const Line4: Line := "  ID=03," + "UUID=0x2A5D," + "PROPERTIES=0x02," + "MIN_LEN=1," + "MAX_LEN=1," + "DATATYPE=0," + "VALUE=0"
  const LineOk: Line := "OK"

  /** The expected reply to the GATT listing command, one entry per line. */
  const ExpectedGattDefinitions: seq<Line> := [Line1, Line2, Line3, Line4, LineOk]

  /** The checksum of each expected line, in listing order. */
  const ExpectedGattChecksums: seq<u16> := [0xAC45, 0x389C, 0x228F, 0x39A6, 0xE99A]

  const ExpectedGattLineCount: u8 := 5

  /** The checksum table is the checksum of the listing, line by line. */
  lemma ChecksumTableMatchesListing()
    ensures |ExpectedGattDefinitions| == |ExpectedGattChecksums| == ExpectedGattLineCount as int
    ensures forall k :: 0 <= k < |ExpectedGattDefinitions| ==>
      Checksum(ExpectedGattDefinitions[k]) == ExpectedGattChecksums[k]
  {
    Line1Checksum(Line1);
    Line2Checksum(Line2);
    Line3Checksum(Line3);
    Line4Checksum(Line4);
    LineOkChecksum(LineOk);
  }

  // The proofs below step the running sums of Fletcher16 through each line,
  // two bytes per assertion, a stretch of at most 8 bytes per lemma.

  lemma Line1Bytes0To8(s: Line)
    requires s == Line1
    ensures AbsorbFrom(s, 0, Sums(0, 0)) == AbsorbFrom(s, 8, Sums(1, 201))
  {
    assert |s| == 17;
    assert AbsorbFrom(s, 0, Sums(0, 0)) == AbsorbFrom(s, 2, Sums(141, 214));
    assert AbsorbFrom(s, 2, Sums(141, 214)) == AbsorbFrom(s, 4, Sums(250, 154));
    assert AbsorbFrom(s, 4, Sums(250, 154)) == AbsorbFrom(s, 6, Sums(87, 28));
    assert AbsorbFrom(s, 6, Sums(87, 28)) == AbsorbFrom(s, 8, Sums(1, 201));
  }

  lemma Line1Bytes8To16(s: Line)
    requires s == Line1
    ensures AbsorbFrom(s, 8, Sums(1, 201)) == AbsorbFrom(s, 16, Sums(13, 103))
  {
    assert |s| == 17;
    assert AbsorbFrom(s, 8, Sums(1, 201)) == AbsorbFrom(s, 10, Sums(142, 161));
    assert AbsorbFrom(s, 10, Sums(142, 161)) == AbsorbFrom(s, 12, Sums(251, 103));
    assert AbsorbFrom(s, 12, Sums(251, 103)) == AbsorbFrom(s, 14, Sums(164, 126));
    assert AbsorbFrom(s, 14, Sums(164, 126)) == AbsorbFrom(s, 16, Sums(13, 103));
  }

  lemma Line1Bytes16To17(s: Line)
    requires s == Line1
    ensures AbsorbFrom(s, 16, Sums(13, 103)) == AbsorbFrom(s, 17, Sums(69, 172))
  {
    assert |s| == 17;
    assert AbsorbFrom(s, 16, Sums(13, 103)) == AbsorbFrom(s, 17, Sums(69, 172));
  }

  lemma Line1Checksum(s: Line)
    requires s == Line1
    ensures Checksum(s) == 0xAC45
  {
    Line1Bytes0To8(s);
    Line1Bytes8To16(s);
    Line1Bytes16To17(s);
    assert AbsorbFrom(s, 17, Sums(69, 172)) == Sums(69, 172);
  }

  lemma Line2Bytes0To8(s: Line)
    requires s == Line2
    ensures AbsorbFrom(s, 0, Sums(0, 0)) == AbsorbFrom(s, 8, Sums(151, 252))
  {
    assert |s| == 74;
    assert AbsorbFrom(s, 0, Sums(0, 0)) == AbsorbFrom(s, 2, Sums(64, 96));
    assert AbsorbFrom(s, 2, Sums(64, 96)) == AbsorbFrom(s, 4, Sums(205, 182));
    assert AbsorbFrom(s, 4, Sums(205, 182)) == AbsorbFrom(s, 6, Sums(58, 250));
    assert AbsorbFrom(s, 6, Sums(58, 250)) == AbsorbFrom(s, 8, Sums(151, 252));
  }

  lemma Line2Bytes8To16(s: Line)
    requires s == Line2
    ensures AbsorbFrom(s, 8, Sums(151, 252)) == AbsorbFrom(s, 16, Sums(229, 95))
  {
    assert |s| == 74;
    assert AbsorbFrom(s, 8, Sums(151, 252)) == AbsorbFrom(s, 10, Sums(65, 41));
    assert AbsorbFrom(s, 10, Sums(65, 41)) == AbsorbFrom(s, 12, Sums(206, 129));
    assert AbsorbFrom(s, 12, Sums(206, 129)) == AbsorbFrom(s, 14, Sums(59, 199));
    assert AbsorbFrom(s, 14, Sums(59, 199)) == AbsorbFrom(s, 16, Sums(229, 95));
  }

  lemma Line2Bytes16To24(s: Line)
    requires s == Line2
    ensures AbsorbFrom(s, 16, Sums(229, 95)) == AbsorbFrom(s, 24, Sums(254, 71))
  {
    assert |s| == 74;
    assert AbsorbFrom(s, 16, Sums(229, 95)) == AbsorbFrom(s, 18, Sums(92, 225));
    assert AbsorbFrom(s, 18, Sums(92, 225)) == AbsorbFrom(s, 20, Sums(189, 47));
    assert AbsorbFrom(s, 20, Sums(189, 47)) == AbsorbFrom(s, 22, Sums(95, 155));
    assert AbsorbFrom(s, 22, Sums(95, 155)) == AbsorbFrom(s, 24, Sums(254, 71));
  }

  lemma Line2Bytes24To32(s: Line)
    requires s == Line2
    ensures AbsorbFrom(s, 24, Sums(254, 71)) == AbsorbFrom(s, 32, Sums(55, 185))
  {
    assert |s| == 74;
    assert AbsorbFrom(s, 24, Sums(254, 71)) == AbsorbFrom(s, 26, Sums(149, 31));
    assert AbsorbFrom(s, 26, Sums(149, 31)) == AbsorbFrom(s, 28, Sums(50, 58));
    assert AbsorbFrom(s, 28, Sums(50, 58)) == AbsorbFrom(s, 30, Sums(202, 123));
    assert AbsorbFrom(s, 30, Sums(202, 123)) == AbsorbFrom(s, 32, Sums(55, 185));
  }

  lemma Line2Bytes32To40(s: Line)
    requires s == Line2
    ensures AbsorbFrom(s, 32, Sums(55, 185)) == AbsorbFrom(s, 40, Sums(128, 147))
  {
    assert |s| == 74;
    assert AbsorbFrom(s, 32, Sums(55, 185)) == AbsorbFrom(s, 34, Sums(223, 71));
    assert AbsorbFrom(s, 34, Sums(223, 71)) == AbsorbFrom(s, 36, Sums(61, 149));
    assert AbsorbFrom(s, 36, Sums(61, 149)) == AbsorbFrom(s, 38, Sums(211, 242));
    assert AbsorbFrom(s, 38, Sums(211, 242)) == AbsorbFrom(s, 40, Sums(128, 147));
  }

  lemma Line2Bytes40To48(s: Line)
    requires s == Line2
    ensures AbsorbFrom(s, 40, Sums(128, 147)) == AbsorbFrom(s, 48, Sums(138, 10))
  {
    assert |s| == 74;
    assert AbsorbFrom(s, 40, Sums(128, 147)) == AbsorbFrom(s, 42, Sums(17, 112));
    assert AbsorbFrom(s, 42, Sums(17, 112)) == AbsorbFrom(s, 44, Sums(156, 107));
    assert AbsorbFrom(s, 44, Sums(156, 107)) == AbsorbFrom(s, 46, Sums(252, 55));
    assert AbsorbFrom(s, 46, Sums(252, 55)) == AbsorbFrom(s, 48, Sums(138, 10));
  }

  lemma Line2Bytes48To56(s: Line)
    requires s == Line2
    ensures AbsorbFrom(s, 48, Sums(138, 10)) == AbsorbFrom(s, 56, Sums(189, 87))
  {
    assert |s| == 74;
    assert AbsorbFrom(s, 48, Sums(138, 10)) == AbsorbFrom(s, 50, Sums(65, 45));
    assert AbsorbFrom(s, 50, Sums(65, 45)) == AbsorbFrom(s, 52, Sums(210, 140));
    assert AbsorbFrom(s, 52, Sums(210, 140)) == AbsorbFrom(s, 54, Sums(93, 9));
    assert AbsorbFrom(s, 54, Sums(93, 9)) == AbsorbFrom(s, 56, Sums(189, 87));
  }

  lemma Line2Bytes56To64(s: Line)
    requires s == Line2
    ensures AbsorbFrom(s, 56, Sums(189, 87)) == AbsorbFrom(s, 64, Sums(25, 163))
  {
    assert |s| == 74;
    assert AbsorbFrom(s, 56, Sums(189, 87)) == AbsorbFrom(s, 58, Sums(66, 154));
    assert AbsorbFrom(s, 58, Sums(66, 154)) == AbsorbFrom(s, 60, Sums(215, 7));
    assert AbsorbFrom(s, 60, Sums(215, 7)) == AbsorbFrom(s, 62, Sums(132, 182));
    assert AbsorbFrom(s, 62, Sums(132, 182)) == AbsorbFrom(s, 64, Sums(25, 163));
  }

  lemma Line2Bytes64To72(s: Line)
    requires s == Line2
    ensures AbsorbFrom(s, 64, Sums(25, 163)) == AbsorbFrom(s, 72, Sums(47, 48))
  {
    assert |s| == 74;
    assert AbsorbFrom(s, 64, Sums(25, 163)) == AbsorbFrom(s, 66, Sums(134, 127));
    assert AbsorbFrom(s, 66, Sums(134, 127)) == AbsorbFrom(s, 68, Sums(8, 57));
    assert AbsorbFrom(s, 68, Sums(8, 57)) == AbsorbFrom(s, 70, Sums(149, 23));
    assert AbsorbFrom(s, 70, Sums(149, 23)) == AbsorbFrom(s, 72, Sums(47, 48));
  }

  lemma Line2Bytes72To74(s: Line)
    requires s == Line2
    ensures AbsorbFrom(s, 72, Sums(47, 48)) == AbsorbFrom(s, 74, Sums(156, 56))
  {
    assert |s| == 74;
    assert AbsorbFrom(s, 72, Sums(47, 48)) == AbsorbFrom(s, 74, Sums(156, 56));
  }

  lemma Line2Checksum(s: Line)
    requires s == Line2
    ensures Checksum(s) == 0x389C
  {
    Line2Bytes0To8(s);
    Line2Bytes8To16(s);
    Line2Bytes16To24(s);
    Line2Bytes24To32(s);
    Line2Bytes32To40(s);
    Line2Bytes40To48(s);
    Line2Bytes48To56(s);
    Line2Bytes56To64(s);
    Line2Bytes64To72(s);
    Line2Bytes72To74(s);
    assert AbsorbFrom(s, 74, Sums(156, 56)) == Sums(156, 56);
  }

  lemma Line3Bytes0To8(s: Line)
    requires s == Line3
    ensures AbsorbFrom(s, 0, Sums(0, 0)) == AbsorbFrom(s, 8, Sums(152, 254))
  {
    assert |s| == 90;
    assert AbsorbFrom(s, 0, Sums(0, 0)) == AbsorbFrom(s, 2, Sums(64, 96));
    assert AbsorbFrom(s, 2, Sums(64, 96)) == AbsorbFrom(s, 4, Sums(205, 182));
    assert AbsorbFrom(s, 4, Sums(205, 182)) == AbsorbFrom(s, 6, Sums(58, 250));
    assert AbsorbFrom(s, 6, Sums(58, 250)) == AbsorbFrom(s, 8, Sums(152, 254));
  }

  lemma Line3Bytes8To16(s: Line)
    requires s == Line3
    ensures AbsorbFrom(s, 8, Sums(152, 254)) == AbsorbFrom(s, 16, Sums(230, 105))
  {
    assert |s| == 90;
    assert AbsorbFrom(s, 8, Sums(152, 254)) == AbsorbFrom(s, 10, Sums(66, 45));
    assert AbsorbFrom(s, 10, Sums(66, 45)) == AbsorbFrom(s, 12, Sums(207, 135));
    assert AbsorbFrom(s, 12, Sums(207, 135)) == AbsorbFrom(s, 14, Sums(60, 207));
    assert AbsorbFrom(s, 14, Sums(60, 207)) == AbsorbFrom(s, 16, Sums(230, 105));
  }

  lemma Line3Bytes16To24(s: Line)
    requires s == Line3
    ensures AbsorbFrom(s, 16, Sums(230, 105)) == AbsorbFrom(s, 24, Sums(253, 77))
  {
    assert |s| == 90;
    assert AbsorbFrom(s, 16, Sums(230, 105)) == AbsorbFrom(s, 18, Sums(93, 237));
    assert AbsorbFrom(s, 18, Sums(93, 237)) == AbsorbFrom(s, 20, Sums(188, 57));
    assert AbsorbFrom(s, 20, Sums(188, 57)) == AbsorbFrom(s, 22, Sums(94, 163));
    assert AbsorbFrom(s, 22, Sums(94, 163)) == AbsorbFrom(s, 24, Sums(253, 77));
  }

  lemma Line3Bytes24To32(s: Line)
    requires s == Line3
    ensures AbsorbFrom(s, 24, Sums(253, 77)) == AbsorbFrom(s, 32, Sums(54, 183))
  {
    assert |s| == 90;
    assert AbsorbFrom(s, 24, Sums(253, 77)) == AbsorbFrom(s, 26, Sums(148, 35));
    assert AbsorbFrom(s, 26, Sums(148, 35)) == AbsorbFrom(s, 28, Sums(49, 60));
    assert AbsorbFrom(s, 28, Sums(49, 60)) == AbsorbFrom(s, 30, Sums(201, 123));
    assert AbsorbFrom(s, 30, Sums(201, 123)) == AbsorbFrom(s, 32, Sums(54, 183));
  }

  lemma Line3Bytes32To40(s: Line)
    requires s == Line3
    ensures AbsorbFrom(s, 32, Sums(54, 183)) == AbsorbFrom(s, 40, Sums(126, 132))
  {
    assert |s| == 90;
    assert AbsorbFrom(s, 32, Sums(54, 183)) == AbsorbFrom(s, 34, Sums(223, 68));
    assert AbsorbFrom(s, 34, Sums(223, 68)) == AbsorbFrom(s, 36, Sums(59, 142));
    assert AbsorbFrom(s, 36, Sums(59, 142)) == AbsorbFrom(s, 38, Sums(209, 231));
    assert AbsorbFrom(s, 38, Sums(209, 231)) == AbsorbFrom(s, 40, Sums(126, 132));
  }

  lemma Line3Bytes40To48(s: Line)
    requires s == Line3
    ensures AbsorbFrom(s, 40, Sums(126, 132)) == AbsorbFrom(s, 48, Sums(138, 243))
  {
    assert |s| == 90;
    assert AbsorbFrom(s, 40, Sums(126, 132)) == AbsorbFrom(s, 42, Sums(15, 93));
    assert AbsorbFrom(s, 42, Sums(15, 93)) == AbsorbFrom(s, 44, Sums(154, 84));
    assert AbsorbFrom(s, 44, Sums(154, 84)) == AbsorbFrom(s, 46, Sums(252, 32));
    assert AbsorbFrom(s, 46, Sums(252, 32)) == AbsorbFrom(s, 48, Sums(138, 243));
  }

  lemma Line3Bytes48To56(s: Line)
    requires s == Line3
    ensures AbsorbFrom(s, 48, Sums(138, 243)) == AbsorbFrom(s, 56, Sums(191, 68))
  {
    assert |s| == 90;
    assert AbsorbFrom(s, 48, Sums(138, 243)) == AbsorbFrom(s, 50, Sums(65, 22));
    assert AbsorbFrom(s, 50, Sums(65, 22)) == AbsorbFrom(s, 52, Sums(210, 117));
    assert AbsorbFrom(s, 52, Sums(210, 117)) == AbsorbFrom(s, 54, Sums(93, 242));
    assert AbsorbFrom(s, 54, Sums(93, 242)) == AbsorbFrom(s, 56, Sums(191, 68));
  }

  lemma Line3Bytes56To64(s: Line)
    requires s == Line3
    ensures AbsorbFrom(s, 56, Sums(191, 68)) == AbsorbFrom(s, 64, Sums(27, 160))
  {
    assert |s| == 90;
    assert AbsorbFrom(s, 56, Sums(191, 68)) == AbsorbFrom(s, 58, Sums(68, 139));
    assert AbsorbFrom(s, 58, Sums(68, 139)) == AbsorbFrom(s, 60, Sums(217, 252));
    assert AbsorbFrom(s, 60, Sums(217, 252)) == AbsorbFrom(s, 62, Sums(134, 175));
    assert AbsorbFrom(s, 62, Sums(134, 175)) == AbsorbFrom(s, 64, Sums(27, 160));
  }

  lemma Line3Bytes64To72(s: Line)
    requires s == Line3
    ensures AbsorbFrom(s, 64, Sums(27, 160)) == AbsorbFrom(s, 72, Sums(49, 61))
  {
    assert |s| == 90;
    assert AbsorbFrom(s, 64, Sums(27, 160)) == AbsorbFrom(s, 66, Sums(136, 128));
    assert AbsorbFrom(s, 66, Sums(136, 128)) == AbsorbFrom(s, 68, Sums(10, 62));
    assert AbsorbFrom(s, 68, Sums(10, 62)) == AbsorbFrom(s, 70, Sums(151, 32));
    assert AbsorbFrom(s, 70, Sums(151, 32)) == AbsorbFrom(s, 72, Sums(49, 61));
  }

  lemma Line3Bytes72To80(s: Line)
    requires s == Line3
    ensures AbsorbFrom(s, 72, Sums(49, 61)) == AbsorbFrom(s, 80, Sums(184, 216))
  {
    assert |s| == 90;
    assert AbsorbFrom(s, 72, Sums(49, 61)) == AbsorbFrom(s, 74, Sums(158, 73));
    assert AbsorbFrom(s, 74, Sums(158, 73)) == AbsorbFrom(s, 76, Sums(251, 18));
    assert AbsorbFrom(s, 76, Sums(251, 18)) == AbsorbFrom(s, 78, Sums(91, 152));
    assert AbsorbFrom(s, 78, Sums(91, 152)) == AbsorbFrom(s, 80, Sums(184, 216));
  }

  lemma Line3Bytes80To88(s: Line)
    requires s == Line3
    ensures AbsorbFrom(s, 80, Sums(184, 216)) == AbsorbFrom(s, 88, Sums(47, 52))
  {
    assert |s| == 90;
    assert AbsorbFrom(s, 80, Sums(184, 216)) == AbsorbFrom(s, 82, Sums(21, 213));
    assert AbsorbFrom(s, 82, Sums(21, 213)) == AbsorbFrom(s, 84, Sums(117, 143));
    assert AbsorbFrom(s, 84, Sums(117, 143)) == AbsorbFrom(s, 86, Sums(210, 3));
    assert AbsorbFrom(s, 86, Sums(210, 3)) == AbsorbFrom(s, 88, Sums(47, 52));
  }

  lemma Line3Bytes88To90(s: Line)
    requires s == Line3
    ensures AbsorbFrom(s, 88, Sums(47, 52)) == AbsorbFrom(s, 90, Sums(143, 34))
  {
    assert |s| == 90;
    assert AbsorbFrom(s, 88, Sums(47, 52)) == AbsorbFrom(s, 90, Sums(143, 34));
  }

  lemma Line3Checksum(s: Line)
    requires s == Line3
    ensures Checksum(s) == 0x228F
  {
    Line3Bytes0To8(s);
    Line3Bytes8To16(s);
    Line3Bytes16To24(s);
    Line3Bytes24To32(s);
    Line3Bytes32To40(s);
    Line3Bytes40To48(s);
    Line3Bytes48To56(s);
    Line3Bytes56To64(s);
    Line3Bytes64To72(s);
    Line3Bytes72To80(s);
    Line3Bytes80To88(s);
    Line3Bytes88To90(s);
    assert AbsorbFrom(s, 90, Sums(143, 34)) == Sums(143, 34);
  }

  lemma Line4Bytes0To8(s: Line)
    requires s == Line4
    ensures AbsorbFrom(s, 0, Sums(0, 0)) == AbsorbFrom(s, 8, Sums(153, 0))
  {
    assert |s| == 74;
    assert AbsorbFrom(s, 0, Sums(0, 0)) == AbsorbFrom(s, 2, Sums(64, 96));
    assert AbsorbFrom(s, 2, Sums(64, 96)) == AbsorbFrom(s, 4, Sums(205, 182));
    assert AbsorbFrom(s, 4, Sums(205, 182)) == AbsorbFrom(s, 6, Sums(58, 250));
    assert AbsorbFrom(s, 6, Sums(58, 250)) == AbsorbFrom(s, 8, Sums(153, 0));
  }

  lemma Line4Bytes8To16(s: Line)
    requires s == Line4
    ensures AbsorbFrom(s, 8, Sums(153, 0)) == AbsorbFrom(s, 16, Sums(231, 115))
  {
    assert |s| == 74;
    assert AbsorbFrom(s, 8, Sums(153, 0)) == AbsorbFrom(s, 10, Sums(67, 49));
    assert AbsorbFrom(s, 10, Sums(67, 49)) == AbsorbFrom(s, 12, Sums(208, 141));
    assert AbsorbFrom(s, 12, Sums(208, 141)) == AbsorbFrom(s, 14, Sums(61, 215));
    assert AbsorbFrom(s, 14, Sums(61, 215)) == AbsorbFrom(s, 16, Sums(231, 115));
  }

  lemma Line4Bytes16To24(s: Line)
    requires s == Line4
    ensures AbsorbFrom(s, 16, Sums(231, 115)) == AbsorbFrom(s, 24, Sums(14, 190))
  {
    assert |s| == 74;
    assert AbsorbFrom(s, 16, Sums(231, 115)) == AbsorbFrom(s, 18, Sums(93, 248));
    assert AbsorbFrom(s, 18, Sums(93, 248)) == AbsorbFrom(s, 20, Sums(205, 102));
    assert AbsorbFrom(s, 20, Sums(205, 102)) == AbsorbFrom(s, 22, Sums(111, 242));
    assert AbsorbFrom(s, 22, Sums(111, 242)) == AbsorbFrom(s, 24, Sums(14, 190));
  }

  lemma Line4Bytes24To32(s: Line)
    requires s == Line4
    ensures AbsorbFrom(s, 24, Sums(14, 190)) == AbsorbFrom(s, 32, Sums(71, 176))
  {
    assert |s| == 74;
    assert AbsorbFrom(s, 24, Sums(14, 190)) == AbsorbFrom(s, 26, Sums(165, 182));
    assert AbsorbFrom(s, 26, Sums(165, 182)) == AbsorbFrom(s, 28, Sums(66, 241));
    assert AbsorbFrom(s, 28, Sums(66, 241)) == AbsorbFrom(s, 30, Sums(218, 82));
    assert AbsorbFrom(s, 30, Sums(218, 82)) == AbsorbFrom(s, 32, Sums(71, 176));
  }

  lemma Line4Bytes32To40(s: Line)
    requires s == Line4
    ensures AbsorbFrom(s, 32, Sums(71, 176)) == AbsorbFrom(s, 40, Sums(144, 10))
  {
    assert |s| == 74;
    assert AbsorbFrom(s, 32, Sums(71, 176)) == AbsorbFrom(s, 34, Sums(239, 94));
    assert AbsorbFrom(s, 34, Sums(239, 94)) == AbsorbFrom(s, 36, Sums(77, 204));
    assert AbsorbFrom(s, 36, Sums(77, 204)) == AbsorbFrom(s, 38, Sums(227, 73));
    assert AbsorbFrom(s, 38, Sums(227, 73)) == AbsorbFrom(s, 40, Sums(144, 10));
  }

  lemma Line4Bytes40To48(s: Line)
    requires s == Line4
    ensures AbsorbFrom(s, 40, Sums(144, 10)) == AbsorbFrom(s, 48, Sums(151, 245))
  {
    assert |s| == 74;
    assert AbsorbFrom(s, 40, Sums(144, 10)) == AbsorbFrom(s, 42, Sums(33, 7));
    assert AbsorbFrom(s, 42, Sums(33, 7)) == AbsorbFrom(s, 44, Sums(172, 34));
    assert AbsorbFrom(s, 44, Sums(172, 34)) == AbsorbFrom(s, 46, Sums(9, 8));
    assert AbsorbFrom(s, 46, Sums(9, 8)) == AbsorbFrom(s, 48, Sums(151, 245));
  }

  lemma Line4Bytes48To56(s: Line)
    requires s == Line4
    ensures AbsorbFrom(s, 48, Sums(151, 245)) == AbsorbFrom(s, 56, Sums(199, 164))
  {
    assert |s| == 74;
    assert AbsorbFrom(s, 48, Sums(151, 245)) == AbsorbFrom(s, 50, Sums(78, 50));
    assert AbsorbFrom(s, 50, Sums(78, 50)) == AbsorbFrom(s, 52, Sums(223, 171));
    assert AbsorbFrom(s, 52, Sums(223, 171)) == AbsorbFrom(s, 54, Sums(106, 66));
    assert AbsorbFrom(s, 54, Sums(106, 66)) == AbsorbFrom(s, 56, Sums(199, 164));
  }

  lemma Line4Bytes56To64(s: Line)
    requires s == Line4
    ensures AbsorbFrom(s, 56, Sums(199, 164)) == AbsorbFrom(s, 64, Sums(35, 64))
  {
    assert |s| == 74;
    assert AbsorbFrom(s, 56, Sums(199, 164)) == AbsorbFrom(s, 58, Sums(76, 251));
    assert AbsorbFrom(s, 58, Sums(76, 251)) == AbsorbFrom(s, 60, Sums(225, 124));
    assert AbsorbFrom(s, 60, Sums(225, 124)) == AbsorbFrom(s, 62, Sums(142, 63));
    assert AbsorbFrom(s, 62, Sums(142, 63)) == AbsorbFrom(s, 64, Sums(35, 64));
  }

  lemma Line4Bytes64To72(s: Line)
    requires s == Line4
    ensures AbsorbFrom(s, 64, Sums(35, 64)) == AbsorbFrom(s, 72, Sums(57, 29))
  {
    assert |s| == 74;
    assert AbsorbFrom(s, 64, Sums(35, 64)) == AbsorbFrom(s, 66, Sums(144, 48));
    assert AbsorbFrom(s, 66, Sums(144, 48)) == AbsorbFrom(s, 68, Sums(18, 254));
    assert AbsorbFrom(s, 68, Sums(18, 254)) == AbsorbFrom(s, 70, Sums(159, 240));
    assert AbsorbFrom(s, 70, Sums(159, 240)) == AbsorbFrom(s, 72, Sums(57, 29));
  }

  lemma Line4Bytes72To74(s: Line)
    requires s == Line4
    ensures AbsorbFrom(s, 72, Sums(57, 29)) == AbsorbFrom(s, 74, Sums(166, 57))
  {
    assert |s| == 74;
    assert AbsorbFrom(s, 72, Sums(57, 29)) == AbsorbFrom(s, 74, Sums(166, 57));
  }

  lemma Line4Checksum(s: Line)
    requires s == Line4
    ensures Checksum(s) == 0x39A6
  {
    Line4Bytes0To8(s);
    Line4Bytes8To16(s);
    Line4Bytes16To24(s);
    Line4Bytes24To32(s);
    Line4Bytes32To40(s);
    Line4Bytes40To48(s);
    Line4Bytes48To56(s);
    Line4Bytes56To64(s);
    Line4Bytes64To72(s);
    Line4Bytes72To74(s);
    assert AbsorbFrom(s, 74, Sums(166, 57)) == Sums(166, 57);
  }

  lemma LineOkBytes0To2(s: Line)
    requires s == LineOk
    ensures AbsorbFrom(s, 0, Sums(0, 0)) == AbsorbFrom(s, 2, Sums(154, 233))
  {
    assert |s| == 2;
    assert AbsorbFrom(s, 0, Sums(0, 0)) == AbsorbFrom(s, 2, Sums(154, 233));
  }

  lemma LineOkChecksum(s: Line)
    requires s == LineOk
    ensures Checksum(s) == 0xE99A
  {
    LineOkBytes0To2(s);
    assert AbsorbFrom(s, 2, Sums(154, 233)) == Sums(154, 233);
  }

  /** No line of the reference listing holds a NUL character. */
  lemma ListingIsNulFree()
    ensures forall k :: 0 <= k < |ExpectedGattDefinitions| ==> '\0' !in ExpectedGattDefinitions[k]
  {
    Line2IsNulFree();
    Line3IsNulFree();
    Line4IsNulFree();
  }

  lemma Line2IsNulFree()
    ensures '\0' !in Line2
  {
  }

  lemma Line3IsNulFree()
    ensures '\0' !in Line3
  {
  }

  lemma Line4IsNulFree()
    ensures '\0' !in Line4
  {
  }
}
