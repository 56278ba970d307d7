/** Worked object texts: what the extractor's patterns make of a few
    concrete room labels. */
module Scenarios {
  import opened Wrappers
  import opened Text
  import opened Patterns
  import opened Cells
  import opened Columns
  import opened Floors
  import opened Extractor

  const Label: string := "№ 12а строение 7/1"

  lemma LabelDigitsStart()
    ensures DigitsStart(Label, 0) == 2
  {
    assert Label[1] == ' ' && Label[2] == '1';
    assert Span(Label, 2, IsRegexSpace) == 0;
  }

  lemma LabelCapture()
    ensures NumberMatchAt(Label, 0)
    ensures NumberCapture(Label, 0) == "12а"
  {
    LabelDigitsStart();
    assert Label[2] == '1' && Label[3] == '2' && Label[4] == 'а';
    assert Span(Label, 4, IsDigit) == 0;
    assert Span(Label, 2, IsDigit) == 2;
    assert Label[2..5] == "12а";
  }

  /** The room number of "№ 12а строение 7/1" is "12а": the digit run after
      "№ " together with the Cyrillic letter that follows it. */
  lemma LabelRoomNumber()
    ensures RoomNumber(Label) == Some("12а")
  {
    LabelCapture();
  }

  /** Lower-casing leaves the small Cyrillic letters of the label alone. */
  lemma LabelLower()
    ensures Lower(Label)[6..14] == BuildingWord
    ensures forall q :: 0 <= q < 6 ==> Lower(Label)[q] != 'с'
  {
    var s := Label;
    assert forall k :: 6 <= k < 14 ==> 'а' <= s[k] <= 'я';
    assert forall k :: 0 <= k < 6 ==> Lower(s)[k] == LowerChar(s[k]);
  }

  lemma LabelNoEarlierBuildingWord()
    ensures forall q :: 0 <= q < 6 ==> !BuildingMatchAt(Label, q)
  {
    LabelLower();
    forall q | 0 <= q < 6
      ensures !OccursAt(Lower(Label), BuildingWord, q)
    {
      assert Lower(Label)[q..q + |BuildingWord|][0] == Lower(Label)[q] != BuildingWord[0];
    }
  }

  lemma LabelBuildingMatch()
    ensures BuildingMatchAt(Label, 6)
    ensures BuildingDigitsStart(Label, 6) == 15
  {
    LabelLower();
    assert Label[14] == ' ' && Label[15] == '7';
    assert Span(Label, 15, IsRegexSpace) == 0;
  }

  lemma LabelBuildingCapture()
    ensures BuildingMatchAt(Label, 6)
    ensures BuildingCaptureAt(Label, 6) == BuildingCapture("7", Some("1"))
  {
    LabelBuildingMatch();
    assert Label[15] == '7' && Label[16] == '/' && Label[17] == '1' && |Label| == 18;
    assert Span(Label, 16, IsDigit) == 0;
    assert DigitsEnd(Label, 15) == 16;
    assert SlashDigitAt(Label, 16);
    assert Span(Label, 18, IsDigit) == 0;
    assert Label[15..16] == "7" && Label[17..18] == "1";
  }

  lemma LabelBuildingMatchesAtWord()
    ensures BuildingMatch(Label) == Some(6)
  {
    LabelNoEarlierBuildingWord();
    LabelBuildingMatch();
  }

  /** The building of "№ 12а строение 7/1" is "7-1": the digits after
      "строение ", a hyphen, and the digits after the slash. */
  lemma LabelBuilding()
    ensures Building(Label) == "7-1"
  {
    LabelBuildingMatchesAtWord();
    LabelBuildingCapture();
    BuildingFromMatch(Label, 6);
    SevenSlashOne();
  }

  /** Groups "7" and "1" make building "7-1". */
  lemma SevenSlashOne()
    ensures BuildingFromCapture(BuildingCapture("7", Some("1"))) == "7-1"
  {
    assert "7" + "-" + "1" == "7-1";
  }

  /** A label that names its floor in words. */
  const FloorInLabel: string := "№ 5 строение 2 этаж 3"

  lemma FloorInLabelMentionsFloor()
    ensures Contains(Lower(FloorInLabel), FloorWord)
  {
    var low := Lower(FloorInLabel);
    assert forall k :: 15 <= k < 19 ==> 'а' <= FloorInLabel[k] <= 'я';
    assert low[15..19] == FloorWord;
    ContainsAt(low, FloorWord, 15);
  }

  /** A row whose object text says "этаж" is taken for a floor banner and
      yields no record, even when it also carries "№" and a number. */
  lemma FloorInLabelRowSkipped(rows: Grid, cols: Columns, i: nat)
    requires i < |rows| && Field(rows[i], cols.obj) == FloorInLabel
    ensures RoomAt(rows, cols, i).None?
  {
    FloorInLabelMentionsFloor();
  }

  /** "2 этаж" is a second-floor banner. */
  lemma SecondFloorBanner()
    ensures BannerLevel("2 этаж") == Some(2)
  {
    var low := Lower("2 этаж");
    assert forall k :: 2 <= k < 6 ==> 'а' <= "2 этаж"[k] <= 'я';
    assert low == "2 этаж";
    ContainsAt(low, FloorWord, 2);
    assert Span(low, 1, IsRegexSpace) == 1;
    assert FloorDigitAt(low, LevelDigit(2), 0);
    forall e | 0 <= e < 2
      ensures !HasFloorDigit(low, LevelDigit(e))
    {
      assert forall k :: 0 <= k < |low| ==> low[k] != LevelDigit(e);
    }
  }

  /** "Этаж 3" names its floor after the word, which the banner patterns do
      not read: the banner says nothing and the backward scan goes on. */
  lemma TrailingDigitBannerSaysNothing()
    ensures BannerLevel("Этаж 3") == None
  {
    var low := Lower("Этаж 3");
    assert forall k :: 0 <= k < 4 ==> 'А' <= "Этаж 3"[k] <= 'я';
    assert low == "этаж 3";
    assert !Contains(low, "подвал") by {
      assert low[0..6][0] != "подвал"[0];
    }
    forall e | 0 <= e <= TopLevel
      ensures !HasFloorDigit(low, LevelDigit(e))
    {
      forall k | 0 <= k < |low|
        ensures !FloorDigitAt(low, LevelDigit(e), k)
      {
        assert low[k] == LevelDigit(e) ==> k == 5;
      }
    }
  }
}
