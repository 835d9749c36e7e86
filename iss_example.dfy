/**
  One complete run of the batch join on a small input: the TLE text of the
  International Space Station and one transmitter record for it.
 */
module IssExample {
  import opened Wrappers
  import opened Json
  import opened OrderedDict
  import opened Sequences
  import Text
  import opened Update
  import UpdateProperties
  import JoinProperties

  /** The TLE text, name line padded with blanks as in the CelesTrak feed. */
  function IssTle(): seq<string> {
    ["ISS (ZARYA)   ", "1 25544U", "2 25544"]
  }

  /**
    A live, active 145.8 MHz FM downlink without drift, whose `norad_cat_id`
    is `id`: the registry gives it as the number 25544 or as the string "25544".
   */
  function IssRecord(id: Value): Record {
    Record(Some(Bool(true)), Some(Str("active")), Some(id),
           Some(Int(145800000)), None, Some(Str("FM")), Some(Str("Mode V/U FM")))
  }

  /** Both spellings of the catalog number are truthy and convert to 25544. */
  lemma IssId(id: Value)
    requires id == Int(25544) || id == Str("25544")
    ensures Truthy(id) && IntOf(id) == Ok(25544)
  {
    if id.Str? {
      Text.ParseDigits("25544");
      UpdateProperties.DigitValues();
    }
  }

  function IssDownlink(): Transmitter {
    Transmitter(Int(145800000), Str("FM"), Str("Mode V/U FM"))
  }

  lemma IssLines()
    ensures Text.Split(Text.Join(IssTle(), '\n'), '\n') == IssTle()
  {
    var lines := IssTle();
    assert forall i :: 0 <= i < |lines| ==> '\n' !in lines[i];
    Text.SplitJoin(lines, '\n');
  }

  lemma IssCatalog()
    ensures Catalog(Triples(IssTle())) == Ok(Empty().Put(25544, Triple("ISS (ZARYA)   ", "1 25544U", "2 25544")))
  {
    var t := Triple("ISS (ZARYA)   ", "1 25544U", "2 25544");
    assert Triples(IssTle()) == [t];
    UpdateProperties.CatalogNumberIss();
    PutAllStep([t], CatalogKey, 0);
    assert [t][..0] == [] && [t][..1] == [t];
  }

  lemma IssLinks(id: Value)
    requires id == Int(25544) || id == Str("25544")
    ensures Links([IssRecord(id)]) == Ok([Link(25544, IssDownlink())])
  {
    IssId(id);
    JoinProperties.ReadRecordPasses(IssRecord(id), Int(145800000), 25544);
    CollectOne(IssRecord(id), ReadRecord);
  }

  lemma IssName()
    ensures Text.Strip("ISS (ZARYA)   ") == "ISS (ZARYA)"
  {
    assert "ISS (ZARYA)   " == "" + "ISS (ZARYA)" + "   ";
    Text.TrimPadded("", "ISS (ZARYA)", "   ", Text.IsSpace);
  }

  lemma IssSelected()
    ensures Selected([25544], map[25544 := Triple("ISS (ZARYA)   ", "1 25544U", "2 25544")], [Link(25544, IssDownlink())])
         == [SatelliteJson("ISS (ZARYA)", "1 25544U", "2 25544", 25544, [IssDownlink()])]
  {
    var t := Triple("ISS (ZARYA)   ", "1 25544U", "2 25544");
    var links := [Link(25544, IssDownlink())];
    JoinProperties.AttachSame([], links[0]);
    assert [] + links == links;
    assert AttachedTo([], 25544) == [];
    assert AttachedTo(links, 25544) == [IssDownlink()];
    IssName();
    assert SatelliteOf(t, 25544, [IssDownlink()]) == SatelliteJson("ISS (ZARYA)", "1 25544U", "2 25544", 25544, [IssDownlink()]);
    var f := Emitter(map[25544 := t], links);
    assert f(25544) == Some(SatelliteOf(t, 25544, [IssDownlink()]));
    assert [25544][..0] == [];
    assert FilterMap([25544], f) == [SatelliteOf(t, 25544, [IssDownlink()])];
  }

  /**
    The whole run: the station is emitted once, with its stripped name, both
    TLE lines, catalog number 25544 and its one downlink, whichever spelling
    of the catalog number the record carries.
   */
  lemma IssRun(id: Value, timestamp: int)
    requires id == Int(25544) || id == Str("25544")
    ensures Joined([IssRecord(id)], Text.Join(IssTle(), '\n'), timestamp)
         == Ok(Document(timestamp, [SatelliteJson("ISS (ZARYA)", "1 25544U", "2 25544", 25544, [IssDownlink()])]))
  {
    var t := Triple("ISS (ZARYA)   ", "1 25544U", "2 25544");
    var catalog := Empty().Put(25544, t);
    IssLines();
    IssCatalog();
    IssLinks(id);
    JoinedByLinks([IssRecord(id)], Text.Join(IssTle(), '\n'), timestamp, catalog);
    assert catalog.keys == [25544] && catalog.entries == map[25544 := t];
    IssSelected();
  }
}
