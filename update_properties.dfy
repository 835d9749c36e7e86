/**
  Properties of the batch join of update.py, stated about the reference
  function `Joined` and its parts (which `Update.Process` is proved to
  compute).
 */
module UpdateProperties {
  import opened Wrappers
  import opened Errors
  import opened Json
  import opened OrderedDict
  import Text
  import opened Update

  // ================================================================ TLE triples

  /** The 0 to 2 lines after the last complete group of three are ignored. */
  lemma TriplesIgnoreTrailing(lines: seq<string>, extra: seq<string>)
    requires |lines| % 3 == 0 && |extra| < 3
    ensures Triples(lines + extra) == Triples(lines)
  {
    var a, b := Triples(lines + extra), Triples(lines);
    assert |a| == |b|;
    forall k | 0 <= k < |a|
      ensures a[k] == b[k]
    {
      assert (lines + extra)[3 * k + 2] == lines[3 * k + 2];
    }
  }

  /** A TLE text whose lines form complete triples gives the same result with a final newline. */
  lemma TrailingNewlineIgnored(records: seq<Record>, active: string, timestamp: int)
    requires |Text.Split(active, '\n')| % 3 == 0
    ensures Joined(records, active + "\n", timestamp) == Joined(records, active, timestamp)
  {
    Text.SplitTrailingSeparator(active, '\n');
    TriplesIgnoreTrailing(Text.Split(active, '\n'), [""]);
  }

  // ================================================================ catalog numbers

  /** Five digits at offsets 2..6 of the line are read as that decimal number. */
  lemma CatalogNumberOfDigits(line: string)
    requires |line| >= 7
    requires forall i :: 2 <= i < 7 ==> Text.IsDigit(line[i])
    ensures CatalogNumber(line) == Ok(Text.LiteralValue(line[2..7]))
  {
    assert Text.Slice(line, 2, 7) == line[2..7];
    Text.ParseDigits(line[2..7]);
  }

  /** An empty slice, or one with no digit, raises ValueError. */
  lemma CatalogNumberNeedsDigit(line: string)
    requires forall i :: 2 <= i < 7 && i < |line| ==> !Text.IsDigit(line[i])
    ensures CatalogNumber(line) == Err(ValueError(Text.Slice(line, 2, 7)))
  {
    var s := Text.Slice(line, 2, 7);
    assert forall i :: 0 <= i < |s| ==> !Text.IsDigit(s[i]);
  }

  /** A slice character that cannot be part of an integer literal, such as a letter, raises ValueError. */
  lemma CatalogNumberStrayCharacter(line: string, j: nat)
    requires 2 <= j < 7 && j < |line|
    requires !Text.IsDigit(line[j]) && line[j] != '_' && line[j] != '+' && line[j] != '-' && !Text.IsIntSpace(line[j])
    ensures CatalogNumber(line) == Err(ValueError(Text.Slice(line, 2, 7)))
  {
    var s := Text.Slice(line, 2, 7);
    assert s[j - 2] == line[j];
    Text.ParseIntStrayCharacter(s, j - 2);
  }

  /** A blank inside the slice, between two other characters, raises ValueError. */
  lemma CatalogNumberInnerSpace(line: string, a: nat, j: nat, b: nat)
    requires 2 <= a < j < b < 7 && b < |line|
    requires !Text.IsIntSpace(line[a]) && Text.IsIntSpace(line[j]) && !Text.IsIntSpace(line[b])
    ensures CatalogNumber(line) == Err(ValueError(Text.Slice(line, 2, 7)))
  {
    var s := Text.Slice(line, 2, 7);
    assert s[a - 2] == line[a] && s[j - 2] == line[j] && s[b - 2] == line[b];
    Text.ParseIntInnerSpace(s, a - 2, j - 2, b - 2);
  }

  /** A trailing letter after four digits is not a catalog number. */
  lemma CatalogNumberTrailingLetter()
    ensures CatalogNumber("1 2554U") == Err(ValueError("2554U"))
  {
    assert Text.Slice("1 2554U", 2, 7) == "2554U";
    CatalogNumberStrayCharacter("1 2554U", 6);
  }

  /** A leading letter before four digits is not a catalog number. */
  lemma CatalogNumberLeadingLetter()
    ensures CatalogNumber("1 A0001") == Err(ValueError("A0001"))
  {
    assert Text.Slice("1 A0001", 2, 7) == "A0001";
    CatalogNumberStrayCharacter("1 A0001", 2);
  }

  /** Digits split by a blank are not a catalog number. */
  lemma CatalogNumberSplitDigits()
    ensures CatalogNumber("1 25 44") == Err(ValueError("25 44"))
  {
    assert Text.Slice("1 25 44", 2, 7) == "25 44";
    CatalogNumberInnerSpace("1 25 44", 3, 4, 5);
  }

  /** The values of the digit strings used in the examples below. */
  lemma DigitValues()
    ensures Text.LiteralValue("255") == 255
    ensures Text.LiteralValue("25544") == 25544
  {
    assert Text.LiteralValue("2") == 2 by { assert "2"[..0] == ""; }
    assert Text.LiteralValue("25") == 25 by { assert "25"[..1] == "2"; }
    assert Text.LiteralValue("255") == 255 by { assert "255"[..2] == "25"; }
    assert Text.LiteralValue("2554") == 2554 by { assert "2554"[..3] == "255"; }
    assert Text.LiteralValue("25544") == 25544 by { assert "25544"[..4] == "2554"; }
  }

  /** The ISS's line 1 carries catalog number 25544. */
  lemma CatalogNumberIss()
    ensures CatalogNumber("1 25544U") == Ok(25544)
  {
    assert Text.Slice("1 25544U", 2, 7) == "25544";
    Text.ParseDigits("25544");
    DigitValues();
  }

  /** A line cut short after three digits is read as a three-digit number. */
  lemma CatalogNumberShortLine()
    ensures CatalogNumber("1 255") == Ok(255)
  {
    assert Text.Slice("1 255", 2, 7) == "255";
    Text.ParseDigits("255");
    DigitValues();
  }

  /** A line cut off before the catalog number raises ValueError. */
  lemma CatalogNumberCutOff()
    ensures CatalogNumber("1 ") == Err(ValueError(""))
  {
    CatalogNumberNeedsDigit("1 ");
    assert Text.Slice("1 ", 2, 7) == "";
  }

}
