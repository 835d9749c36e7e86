/**
  Properties of the second loop of update.py and of the output: which
  records contribute a transmitter, where it is attached, and which
  satellites are emitted, stated about `Links`, `AttachedTo`, `Selected`
  and `Joined`.
 */
module JoinProperties {
  import opened Wrappers
  import opened Errors
  import opened Json
  import opened OrderedDict
  import opened Sequences
  import Text
  import opened Update

  // ================================================================ reading one record

  /** A record passes exactly when the three filters pass and every later read succeeds. */
  lemma ReadRecordPasses(d: Record, frequency: Value, norad: int)
    requires d.alive.Some? && Truthy(d.alive.value)
    requires d.status == Some(Str("active"))
    requires d.noradCatId.Some? && Truthy(d.noradCatId.value)
    requires d.downlinkLow.Some? && d.mode.Some? && d.description.Some?
    requires d.drift.None? ==> frequency == d.downlinkLow.value
    requires d.drift.Some? ==> Corrected(d.downlinkLow.value, d.drift.value) == Ok(frequency)
    requires IntOf(d.noradCatId.value) == Ok(norad)
    ensures ReadRecord(d) == Ok(Some(Link(norad, Transmitter(frequency, d.mode.value, d.description.value))))
  {
  }

  /** A record is skipped (the `continue`s) exactly when one of the three filters fails on a present key. */
  lemma ReadRecordSkipped(d: Record)
    ensures ReadRecord(d) == Ok(None) <==>
      && d.alive.Some?
      && (!Truthy(d.alive.value)
          || (d.status.Some? && d.status.value != Str("active"))
          || (d.status == Some(Str("active")) && d.noradCatId.Some? && !Truthy(d.noradCatId.value)))
  {
  }

  /** The three filters of the second loop pass: `alive` truthy, `status` "active", `norad_cat_id` truthy. */
  predicate PassesFilters(d: Record) {
    && d.alive.Some? && Truthy(d.alive.value)
    && d.status == Some(Str("active"))
    && d.noradCatId.Some? && Truthy(d.noradCatId.value)
  }

  /**
    Missing keys and values of the wrong type raise, in the order the source
    reads them; a key raises only once its read is reached.
   */
  lemma ReadRecordMissingKeys(d: Record)
    ensures d.alive.None? ==> ReadRecord(d) == Err(KeyError("alive"))
    ensures d.alive.Some? && Truthy(d.alive.value) && d.status.None? ==> ReadRecord(d) == Err(KeyError("status"))
    ensures d.alive.Some? && Truthy(d.alive.value) && d.status == Some(Str("active")) && d.noradCatId.None? ==>
      ReadRecord(d) == Err(KeyError("norad_cat_id"))
    ensures PassesFilters(d) && d.downlinkLow.None? ==> ReadRecord(d) == Err(KeyError("downlink_low"))
    ensures PassesFilters(d) && d.downlinkLow.Some? && d.drift.Some? && !IsNumber(d.drift.value) ==>
      ReadRecord(d) == Err(TypeError("/"))
    ensures PassesFilters(d) && d.downlinkLow.Some? && d.drift.Some? && IsNumber(d.drift.value)
            && !IsNumber(d.downlinkLow.value) ==>
      ReadRecord(d) == Err(TypeError("*"))
    ensures PassesFilters(d) && d.downlinkLow.Some? && (d.drift.None? || (IsNumber(d.drift.value) && IsNumber(d.downlinkLow.value)))
            && IntOf(d.noradCatId.value).Err? ==>
      ReadRecord(d) == Err(IntOf(d.noradCatId.value).error)
    ensures PassesFilters(d) && d.downlinkLow.Some? && (d.drift.None? || (IsNumber(d.drift.value) && IsNumber(d.downlinkLow.value)))
            && IntOf(d.noradCatId.value).Ok? && d.mode.None? ==>
      ReadRecord(d) == Err(KeyError("mode"))
    ensures PassesFilters(d) && d.downlinkLow.Some? && (d.drift.None? || (IsNumber(d.drift.value) && IsNumber(d.downlinkLow.value)))
            && IntOf(d.noradCatId.value).Ok? && d.mode.Some? && d.description.None? ==>
      ReadRecord(d) == Err(KeyError("description"))
  {
  }

  /** 100 000 000 Hz with a drift of 500 ppb is read as 100 000 050 Hz. */
  lemma DriftExample()
    ensures Corrected(Int(100000000), Int(500)) == Ok(Float(100000050.0))
  {
  }

  /** A record that passes but has no `mode` aborts the whole run with KeyError('mode'). */
  lemma MissingModeExample()
    ensures Joined([Record(Some(Bool(true)), Some(Str("active")), Some(Int(25544)),
                           Some(Int(145800000)), None, None, Some(Str("FM")))], "", 0)
         == Err(KeyError("mode"))
  {
    var d := Record(Some(Bool(true)), Some(Str("active")), Some(Int(25544)),
                    Some(Int(145800000)), None, None, Some(Str("FM")));
    assert ReadRecord(d) == Err(KeyError("mode"));
    assert [d][..0] == [];
    assert Text.Split("", '\n') == [""];
  }

  // ================================================================ the links of a feed

  /** A skipped record has no effect on the links, wherever it stands in the feed. */
  lemma RejectedRecordInvisible(a: seq<Record>, d: Record, b: seq<Record>)
    requires ReadRecord(d) == Ok(None)
    ensures Links(a + [d] + b) == Links(a + b)
  {
    CollectOne(d, ReadRecord);
    CollectAppend(a, [d], ReadRecord);
    CollectAppend(a + [d], b, ReadRecord);
    CollectAppend(a, b, ReadRecord);
    if Links(a).Ok? {
      assert Links(a).value + [] == Links(a).value;
    }
  }

  // ================================================================ attaching transmitters

  /** Attaching over two runs of links: the transmitters of the first run come first. */
  lemma {:induction false} AttachedAppend(a: seq<Link>, b: seq<Link>, k: int)
    ensures AttachedTo(a + b, k) == AttachedTo(a, k) + AttachedTo(b, k)
  {
    if b == [] {
      assert a + b == a;
    } else {
      var m := |b| - 1;
      AttachedAppend(a, b[..m], k);
      assert (a + b)[..|a + b| - 1] == a + b[..m];
      assert (a + b)[|a + b| - 1] == b[m];
    }
  }

  /** A transmitter is listed under `k` exactly when some link asks for `k` with it. */
  lemma {:induction false} AttachedMembers(links: seq<Link>, k: int, t: Transmitter)
    ensures t in AttachedTo(links, k) <==> Link(k, t) in links
  {
    if links != [] {
      var m := |links| - 1;
      AttachedMembers(links[..m], k, t);
      assert links == links[..m] + [links[m]];
    }
  }

  /**
    Each satellite's transmitters keep the order of the feed: over a feed
    `a + b`, those from records of `a` come before those from records of `b`.
   */
  lemma TransmitterOrder(a: seq<Record>, b: seq<Record>, k: int)
    requires Links(a + b).Ok?
    ensures Links(a).Ok? && Links(b).Ok?
    ensures AttachedTo(Links(a + b).value, k) == AttachedTo(Links(a).value, k) + AttachedTo(Links(b).value, k)
  {
    CollectAppend(a, b, ReadRecord);
    AttachedAppend(Links(a).value, Links(b).value, k);
  }

  /** A link for another catalog number leaves the transmitters of `k` unchanged. */
  lemma AttachOther(links: seq<Link>, link: Link, k: int)
    requires link.norad != k
    ensures AttachedTo(links + [link], k) == AttachedTo(links, k)
  {
    assert (links + [link])[..|links|] == links;
  }

  /** A link for `k` appends its transmitter to the end of the list of `k`. */
  lemma AttachSame(links: seq<Link>, link: Link)
    ensures AttachedTo(links + [link], link.norad) == AttachedTo(links, link.norad) + [link.transmitter]
  {
    assert (links + [link])[..|links|] == links;
  }

  // ================================================================ selecting the output satellites

  /** An output entry is exactly the satellite of a key that received at least one transmitter. */
  lemma SelectedMembers(keys: seq<int>, entries: map<int, Triple>, links: seq<Link>, v: Value)
    requires forall i :: 0 <= i < |keys| ==> keys[i] in entries
    ensures v in Selected(keys, entries, links) <==>
      exists i :: 0 <= i < |keys| && AttachedTo(links, keys[i]) != [] &&
        v == SatelliteOf(entries[keys[i]], keys[i], AttachedTo(links, keys[i]))
  {
    FilterMapMembers(keys, Emitter(entries, links), v);
  }

  /**
    The output lists the kept satellites in key order: the one for `keys[i]`
    sits at position `Rank` of `i`, there are as many entries as kept keys,
    and a kept key before `keys[i]` has its entry earlier in the list.
   */
  lemma SelectedInOrder(keys: seq<int>, entries: map<int, Triple>, links: seq<Link>, i: nat)
    requires forall j :: 0 <= j < |keys| ==> keys[j] in entries
    requires i < |keys| && AttachedTo(links, keys[i]) != []
    ensures |Selected(keys, entries, links)| == Rank(keys, Emitter(entries, links), |keys|)
    ensures Rank(keys, Emitter(entries, links), i) < |Selected(keys, entries, links)|
    ensures Selected(keys, entries, links)[Rank(keys, Emitter(entries, links), i)] ==
      SatelliteOf(entries[keys[i]], keys[i], AttachedTo(links, keys[i]))
    ensures forall j :: 0 <= j < i && AttachedTo(links, keys[j]) != [] ==>
      Rank(keys, Emitter(entries, links), j) < Rank(keys, Emitter(entries, links), i)
  {
    var f := Emitter(entries, links);
    FilterMapAt(keys, f, i);
    forall j | 0 <= j < i && AttachedTo(links, keys[j]) != []
      ensures Rank(keys, f, j) < Rank(keys, f, i)
    {
      RankIncreasing(keys, f, j, i);
    }
  }

  /** Keys whose transmitter lists agree give the same output. */
  lemma SelectedUnaffected(keys: seq<int>, entries: map<int, Triple>, a: seq<Link>, b: seq<Link>)
    requires forall i :: 0 <= i < |keys| ==> AttachedTo(a, keys[i]) == AttachedTo(b, keys[i])
    ensures Selected(keys, entries, a) == Selected(keys, entries, b)
  {
    FilterMapAgree(keys, Emitter(entries, a), Emitter(entries, b));
  }

  // ================================================================ the whole run

  /** Over a whole catalog: an output entry is exactly the satellite of a catalog number that received a transmitter. */
  lemma CatalogSelectedMembers(catalog: Dict<int, Triple>, links: seq<Link>, v: Value)
    requires catalog.Valid()
    ensures v in Selected(catalog.keys, catalog.entries, links) <==>
      exists n :: n in catalog.entries && AttachedTo(links, n) != [] &&
        v == SatelliteOf(catalog.entries[n], n, AttachedTo(links, n))
  {
    SelectedMembers(catalog.keys, catalog.entries, links, v);
    if exists n :: n in catalog.entries && AttachedTo(links, n) != [] &&
        v == SatelliteOf(catalog.entries[n], n, AttachedTo(links, n)) {
      var n :| n in catalog.entries && AttachedTo(links, n) != [] &&
        v == SatelliteOf(catalog.entries[n], n, AttachedTo(links, n));
      var i := IndexOf(catalog.keys, n);
      assert catalog.keys[i] == n;
    }
  }

  /**
    The output satellites are exactly the catalog entries that received a
    transmitter, each with the transmitters linked to its catalog number.
   */
  lemma OutputSatellites(records: seq<Record>, active: string, timestamp: int,
                         catalog: Dict<int, Triple>, links: seq<Link>, v: Value)
    requires Catalog(Triples(Text.Split(active, '\n'))) == Ok(catalog)
    requires Links(records) == Ok(links)
    ensures Joined(records, active, timestamp) == Ok(Document(timestamp, Selected(catalog.keys, catalog.entries, links)))
    ensures v in Selected(catalog.keys, catalog.entries, links) <==>
      exists n :: n in catalog.entries && AttachedTo(links, n) != [] &&
        v == SatelliteOf(catalog.entries[n], n, AttachedTo(links, n))
  {
    JoinedByLinks(records, active, timestamp, catalog);
    CatalogSelectedMembers(catalog, links, v);
  }

  /** A skipped record can be removed from the feed without changing the result. */
  lemma RejectedRecordIgnored(a: seq<Record>, d: Record, b: seq<Record>, active: string, timestamp: int)
    requires ReadRecord(d) == Ok(None)
    ensures Joined(a + [d] + b, active, timestamp) == Joined(a + b, active, timestamp)
  {
    RejectedRecordInvisible(a, d, b);
  }

  /**
    A passing record for a catalog number not in the TLE text is dropped
    without effect, wherever it stands in the feed.
   */
  lemma UnmatchedRecordDropped(a: seq<Record>, d: Record, b: seq<Record>, link: Link, active: string, timestamp: int)
    requires ReadRecord(d) == Ok(Some(link))
    requires Catalog(Triples(Text.Split(active, '\n'))).Ok? ==>
      link.norad !in Catalog(Triples(Text.Split(active, '\n'))).value.entries
    ensures Joined(a + [d] + b, active, timestamp) == Joined(a + b, active, timestamp)
  {
    CollectOne(d, ReadRecord);
    CollectAppend(a, [d], ReadRecord);
    CollectAppend(a + [d], b, ReadRecord);
    CollectAppend(a, b, ReadRecord);
    var c := Catalog(Triples(Text.Split(active, '\n')));
    if c.Ok? {
      var catalog := c.value;
      JoinedByLinks(a + [d] + b, active, timestamp, catalog);
      JoinedByLinks(a + b, active, timestamp, catalog);
      if Links(a).Ok? && Links(b).Ok? {
        var la, lb := Links(a).value, Links(b).value;
        assert Links(a + [d] + b).value == la + [link] + lb;
        forall i | 0 <= i < |catalog.keys|
          ensures AttachedTo(la + [link] + lb, catalog.keys[i]) == AttachedTo(la + lb, catalog.keys[i])
        {
          var k := catalog.keys[i];
          assert k in catalog.entries;
          AttachedAppend(la + [link], lb, k);
          AttachedAppend(la, lb, k);
          AttachOther(la, link, k);
        }
        SelectedUnaffected(catalog.keys, catalog.entries, la + [link] + lb, la + lb);
      }
    }
  }

  /** A passing record adds its link at the end of the links. */
  lemma MatchedLinks(records: seq<Record>, d: Record, link: Link)
    requires ReadRecord(d) == Ok(Some(link))
    requires Links(records).Ok?
    ensures Links(records + [d]) == Ok(Links(records).value + [link])
  {
    CollectOne(d, ReadRecord);
    CollectAppend(records, [d], ReadRecord);
  }

  /**
    A passing record for a catalog number in the TLE text puts that
    satellite in the output, with the record's transmitter last in its list.
   */
  lemma MatchedRecordAppended(records: seq<Record>, d: Record, link: Link, active: string, timestamp: int,
                              catalog: Dict<int, Triple>)
    requires ReadRecord(d) == Ok(Some(link))
    requires Catalog(Triples(Text.Split(active, '\n'))) == Ok(catalog)
    requires link.norad in catalog.entries
    requires Links(records).Ok?
    ensures Joined(records + [d], active, timestamp).Ok?
    ensures SatelliteOf(catalog.entries[link.norad], link.norad,
                        AttachedTo(Links(records).value, link.norad) + [link.transmitter])
         in Joined(records + [d], active, timestamp).value.fields["satellites"].items
  {
    MatchedLinks(records, d, link);
    var out := Selected(catalog.keys, catalog.entries, Links(records).value + [link]);
    MatchedOutput(catalog, Links(records).value, link);
    JoinedByLinks(records + [d], active, timestamp, catalog);
    assert Joined(records + [d], active, timestamp) == Ok(Document(timestamp, out));
    assert Document(timestamp, out).fields["satellites"].items == out;
  }

  /** A link to a catalog entry puts that entry in the output, with the linked transmitter last. */
  lemma MatchedOutput(catalog: Dict<int, Triple>, links: seq<Link>, link: Link)
    requires catalog.Valid() && link.norad in catalog.entries
    ensures SatelliteOf(catalog.entries[link.norad], link.norad, AttachedTo(links, link.norad) + [link.transmitter])
         in Selected(catalog.keys, catalog.entries, links + [link])
  {
    AttachSame(links, link);
    CatalogSelectedMembers(catalog, links + [link],
      SatelliteOf(catalog.entries[link.norad], link.norad, AttachedTo(links + [link], link.norad)));
  }

  /** Once the catalog is built, the first record that raises aborts the run with its exception. */
  lemma RaisingRecordAborts(records: seq<Record>, j: nat, active: string, timestamp: int)
    requires Catalog(Triples(Text.Split(active, '\n'))).Ok?
    requires j < |records| && ReadRecord(records[j]).Err?
    requires forall i :: 0 <= i < j ==> ReadRecord(records[i]).Ok?
    ensures Joined(records, active, timestamp) == Err(ReadRecord(records[j]).error)
  {
    CollectFirstError(records, ReadRecord, j);
    JoinedByLinks(records, active, timestamp, Catalog(Triples(Text.Split(active, '\n'))).value);
  }
}
