/**
  The batch join of update.py: TLE text is cut into (name, line 1, line 2)
  triples and indexed by catalog number, transmitter records are filtered
  and attached to the satellite with their catalog number, and the
  satellites that received a transmitter are emitted in catalog order.

  `Joined` defines the result as a function of the inputs; `Process` is the
  step-by-step procedure of the source, over `Satellite` objects that are
  updated in place, and is proved to compute it.
 */
module Update {
  import opened Wrappers
  import opened Errors
  import opened Json
  import opened OrderedDict
  import opened Sequences
  import Text

  // ================================================================ entities

  /** A transmitter as it is listed under its satellite; never changed once built. */
  datatype Transmitter = Transmitter(frequency: Value, mode: Value, description: Value) {

    /** Transmitter.json(): an object with exactly the three fields. */
    function ToJson(): (j: Value)
      ensures j.Object? && j.fields.Keys == {"frequency", "mode", "description"}
      ensures TransmitterFromJson(j) == Some(this)
    {
      Object(map["frequency" := frequency, "mode" := mode, "description" := description])
    }
  }

  /** Reads a transmitter back from its JSON object (the inverse of `ToJson`). */
  function TransmitterFromJson(j: Value): Option<Transmitter> {
    if j.Object? && "frequency" in j.fields && "mode" in j.fields && "description" in j.fields then
      Some(Transmitter(j.fields["frequency"], j.fields["mode"], j.fields["description"]))
    else
      None
  }

  /** `[t.json() for t in transmitters]`: one object per transmitter, each reading back as that transmitter. */
  function TransmittersJson(ts: seq<Transmitter>): (js: seq<Value>)
    ensures |js| == |ts|
    ensures forall i :: 0 <= i < |ts| ==> TransmitterFromJson(js[i]) == Some(ts[i])
  {
    seq(|ts|, i requires 0 <= i < |ts| => ts[i].ToJson())
  }

  /** Satellite.json(): name, both TLE lines, the catalog number and the transmitters in order. */
  function SatelliteJson(name: string, tle1: string, tle2: string, norad: int, ts: seq<Transmitter>): (j: Value)
    ensures j.Object? && j.fields.Keys == {"name", "tle1", "tle2", "norad", "transmitters"}
    ensures j.fields["name"] == Str(name) && j.fields["tle1"] == Str(tle1) && j.fields["tle2"] == Str(tle2)
    ensures j.fields["norad"] == Int(norad)
    ensures j.fields["transmitters"].Array? && |j.fields["transmitters"].items| == |ts|
    ensures forall i :: 0 <= i < |ts| ==> TransmitterFromJson(j.fields["transmitters"].items[i]) == Some(ts[i])
  {
    Object(map[
      "name" := Str(name),
      "tle1" := Str(tle1),
      "tle2" := Str(tle2),
      "norad" := Int(norad),
      "transmitters" := Array(TransmittersJson(ts))])
  }

  /**
    A satellite of the catalog. Its name, TLE lines and catalog number are
    fixed at construction; only its transmitter list grows, by appending.
   */
  class Satellite {
    const name: string
    const tle1: string
    const tle2: string
    const norad: int
    var transmitters: seq<Transmitter>

    constructor (name: string, tle1: string, tle2: string, norad: int)
      ensures this.name == Text.Strip(name)
      ensures this.tle1 == tle1 && this.tle2 == tle2 && this.norad == norad
      ensures transmitters == []
    {
      this.name := Text.Strip(name);
      this.tle1 := tle1;
      this.tle2 := tle2;
      this.norad := norad;
      transmitters := [];
    }

    function ToJson(): Value
      reads this
    {
      SatelliteJson(name, tle1, tle2, norad, transmitters)
    }
  }

  /**
    A transmitter record of the registry feed. Each field is the value under
    that key, or None when the record lacks the key; other keys are never read.
   */
  datatype Record = Record(
    alive: Option<Value>,
    status: Option<Value>,
    noradCatId: Option<Value>,
    downlinkLow: Option<Value>,
    drift: Option<Value>,
    mode: Option<Value>,
    description: Option<Value>)

  /** `d[key]`: the value, or KeyError when the key is absent. */
  function Lookup(field: Option<Value>, key: string): Result<Value, Error>
  {
    if field.Some? then Ok(field.value) else Err(KeyError(key))
  }

  /** Three consecutive lines of the TLE text: name line, TLE line 1, TLE line 2. */
  datatype Triple = Triple(name: string, line1: string, line2: string)

  /** A transmitter that passed the filter, with the catalog number it asks for. */
  datatype Link = Link(norad: int, transmitter: Transmitter)

  // ================================================================ parsing TLE text

  /**
    `zip(lines[::3], lines[1::3], lines[2::3])`: one triple per complete group
    of three lines, in order; the 0 to 2 lines after the last group are dropped.
   */
  function Triples(lines: seq<string>): (r: seq<Triple>)
    ensures |r| == |lines| / 3
    ensures forall k :: 0 <= k < |r| ==> r[k] == Triple(lines[3 * k], lines[3 * k + 1], lines[3 * k + 2])
  {
    if |lines| < 3 then []
    else
      var rest := Triples(lines[3..]);
      assert forall k :: 0 <= k < |rest| ==> lines[3..][3 * k] == lines[3 * (k + 1)];
      [Triple(lines[0], lines[1], lines[2])] + rest
  }

  /** `int(l2[2:7])`, where `l2` is the second line of a triple (TLE line 1). */
  function CatalogNumber(line: string): Result<int, Error> {
    Text.ParseInt(Text.Slice(line, 2, 7))
  }

  /** The key under which a triple is stored: `int(l2[2:7])`. */
  function CatalogKey(t: Triple): Result<int, Error> {
    CatalogNumber(t.line1)
  }

  /**
    The catalog dictionary after the first loop: triple by triple, in order,
    `satellites[norad] = Satellite(...)`, stopping at the first catalog number
    that fails to parse. Every key is the catalog number of the triple stored
    under it.
   */
  function Catalog(triples: seq<Triple>): (r: Result<Dict<int, Triple>, Error>)
    ensures r.Ok? ==> r.value.Valid()
    ensures r.Ok? ==> forall k :: k in r.value.entries ==> CatalogNumber(r.value.entries[k].line1) == Ok(k)
  {
    PutAllValid(triples, CatalogKey);
    PutAll(triples, CatalogKey)
  }

  // ================================================================ filtering transmitters

  /** `frequency *= 1.0 + d["drift"] / 1.0e9` */
  function Corrected(frequency: Value, drift: Value): (r: Result<Value, Error>)
    ensures r.Ok? <==> IsNumber(frequency) && IsNumber(drift)
    ensures r.Ok? ==> r.value == Float(NumberValue(frequency) * (1.0 + NumberValue(drift) / 1000000000.0))
    ensures r.Ok? && NumberValue(drift) == 0.0 ==> r.value == Float(NumberValue(frequency))
  {
    var ppb :- FloatDivide(drift, 1000000000.0);
    assert FloatMultiply(frequency, 1.0 + ppb.r) == FloatMultiply(frequency, 1.0 + NumberValue(drift) / 1000000000.0);
    FloatMultiply(frequency, 1.0 + ppb.r)
  }

  /**
    One pass of the second loop over a record, up to the membership test:
    Ok(None) when the record is skipped, Ok(Some(link)) when it passes, and
    the exception otherwise. A record passes only when `alive` is truthy,
    `status` equals "active" and `norad_cat_id` is truthy; its transmitter
    then carries `downlink_low` (drift-corrected when `drift` is present),
    `mode` and `description`.
   */
  function ReadRecord(d: Record): (r: Result<Option<Link>, Error>)
    ensures r.Ok? && r.value.Some? ==>
      && d.alive.Some? && Truthy(d.alive.value)
      && d.status == Some(Str("active"))
      && d.noradCatId.Some? && Truthy(d.noradCatId.value)
      && IntOf(d.noradCatId.value) == Ok(r.value.value.norad)
      && d.downlinkLow.Some? && d.mode.Some? && d.description.Some?
      && r.value.value.transmitter.mode == d.mode.value
      && r.value.value.transmitter.description == d.description.value
    ensures r.Ok? && r.value.Some? && d.drift.None? ==> r.value.value.transmitter.frequency == d.downlinkLow.value
  {
    var alive :- Lookup(d.alive, "alive");
    if !Truthy(alive) then Ok(None) else
    var status :- Lookup(d.status, "status");
    if status != Str("active") then Ok(None) else
    var id :- Lookup(d.noradCatId, "norad_cat_id");
    if !Truthy(id) then Ok(None) else
    var low :- Lookup(d.downlinkLow, "downlink_low");
    var frequency :- if d.drift.Some? then Corrected(low, d.drift.value) else Ok(low);
    var norad :- IntOf(id);
    var mode :- Lookup(d.mode, "mode");
    var description :- Lookup(d.description, "description");
    Ok(Some(Link(norad, Transmitter(frequency, mode, description))))
  }

  /** The links of all passing records, in input order, or the first exception. */
  function Links(records: seq<Record>): (r: Result<seq<Link>, Error>)
    ensures r.Ok? ==> |r.value| <= |records|
  {
    CollectLength(records, ReadRecord);
    Collect(records, ReadRecord)
  }

  /** The transmitters of the links that ask for catalog number `k`, in link order. */
  function AttachedTo(links: seq<Link>, k: int): seq<Transmitter> {
    if links == [] then []
    else
      var last := links[|links| - 1];
      AttachedTo(links[..|links| - 1], k) + if last.norad == k then [last.transmitter] else []
  }

  // ================================================================ output

  /** The output entry of the satellite built from triple `t` under key `k`. */
  function SatelliteOf(t: Triple, k: int, ts: seq<Transmitter>): Value {
    SatelliteJson(Text.Strip(t.name), t.line1, t.line2, k, ts)
  }

  /** The output entry for catalog key `k`: its satellite, when that received at least one transmitter. */
  function Emitted(entries: map<int, Triple>, links: seq<Link>, k: int): Option<Value> {
    var ts := AttachedTo(links, k);
    if k in entries && ts != [] then Some(SatelliteOf(entries[k], k, ts)) else None
  }

  /** `Emitted` as the condition-and-value function of the comprehension. */
  function Emitter(entries: map<int, Triple>, links: seq<Link>): int -> Option<Value> {
    k => Emitted(entries, links, k)
  }

  /** `[s.json() for s in satellites.values() if s.transmitters]` over the catalog keys `keys`. */
  function Selected(keys: seq<int>, entries: map<int, Triple>, links: seq<Link>): seq<Value> {
    FilterMap(keys, Emitter(entries, links))
  }

  /** The output document: a timestamp and the satellite list. */
  function Document(timestamp: int, satellites: seq<Value>): Value {
    Object(map["timestamp" := Int(timestamp), "satellites" := Array(satellites)])
  }

  /**
    `process(transmitters, active)` as a function of its inputs, with the
    clock reading `timestamp` (milliseconds) passed in.
   */
  function Joined(records: seq<Record>, active: string, timestamp: int): Result<Value, Error> {
    var catalog :- Catalog(Triples(Text.Split(active, '\n')));
    var links :- Links(records);
    Ok(Document(timestamp, Selected(catalog.keys, catalog.entries, links)))
  }

  // ================================================================ the procedure

  /** The comprehension of update.py:91 evaluated over the satellite objects. */
  function EmitSatellites(sats: seq<Satellite>): seq<Value>
    reads sats
  {
    if sats == [] then []
    else
      var s := sats[|sats| - 1];
      EmitSatellites(sats[..|sats| - 1]) + if s.transmitters != [] then [s.ToJson()] else []
  }

  /** `sat` is the satellite built from triple `t` under key `n`, holding transmitters `ts`. */
  ghost predicate Represents(sat: Satellite, n: int, t: Triple, ts: seq<Transmitter>)
    reads sat
  {
    && sat.name == Text.Strip(t.name) && sat.tle1 == t.line1 && sat.tle2 == t.line2
    && sat.norad == n && sat.transmitters == ts
  }

  /**
    The object dictionary `satellites` mirrors the catalog value: same keys in
    the same order, one distinct satellite per key, each satellite holding the
    transmitters linked to its key so far.
   */
  ghost predicate Mirrors(satellites: Dict<int, Satellite>, catalog: Dict<int, Triple>, links: seq<Link>)
    reads satellites.entries.Values
  {
    && catalog.Valid()
    && satellites.keys == catalog.keys
    && satellites.entries.Keys == catalog.entries.Keys
    && (forall n :: n in satellites.entries ==>
          Represents(satellites.entries[n], n, catalog.entries[n], AttachedTo(links, n)))
    && (forall m, n :: m in satellites.entries && n in satellites.entries && m != n ==>
          satellites.entries[m] != satellites.entries[n])
  }

  lemma {:induction false} EmitMatchesSelected(sats: seq<Satellite>, keys: seq<int>, entries: map<int, Triple>, links: seq<Link>)
    requires |sats| == |keys|
    requires forall i :: 0 <= i < |keys| ==> keys[i] in entries
    requires forall i :: 0 <= i < |keys| ==> Represents(sats[i], keys[i], entries[keys[i]], AttachedTo(links, keys[i]))
    ensures EmitSatellites(sats) == Selected(keys, entries, links)
  {
    if keys != [] {
      EmitMatchesSelected(sats[..|sats| - 1], keys[..|keys| - 1], entries, links);
    }
  }

  /** A record that reads without raising extends the links by what it yields. */
  lemma LinksExtend(records: seq<Record>, i: nat, links: seq<Link>)
    requires i < |records|
    requires Links(records[..i]) == Ok(links)
    requires ReadRecord(records[i]).Ok?
    ensures ReadRecord(records[i]).value.None? ==> Links(records[..i + 1]) == Ok(links)
    ensures ReadRecord(records[i]).value.Some? ==>
      Links(records[..i + 1]) == Ok(links + [ReadRecord(records[i]).value.value])
  {
    CollectStep(records, ReadRecord, i);
  }

  /** A record that raises after `links` were read makes the whole feed raise its exception. */
  lemma LinksRaise(records: seq<Record>, i: nat, links: seq<Link>)
    requires i < |records|
    requires Links(records[..i]) == Ok(links)
    requires ReadRecord(records[i]).Err?
    ensures Links(records) == Err(ReadRecord(records[i]).error)
  {
    CollectStep(records, ReadRecord, i);
    CollectErrorSticks(records, ReadRecord, i + 1);
  }

  /**
    The body of the second loop of process up to the membership test, for
    one record `d`: each `continue` of the source returns Ok(None), each
    exception returns Err, and a passing record returns its catalog number
    and its new transmitter.
   */
  method ReadTransmitter(d: Record) returns (r: Result<Option<Link>, Error>)
    ensures r == ReadRecord(d)
  {
    var alive :- Lookup(d.alive, "alive");
    if !Truthy(alive) {
      return Ok(None);
    }
    var status :- Lookup(d.status, "status");
    if status != Str("active") {
      return Ok(None);
    }
    var id :- Lookup(d.noradCatId, "norad_cat_id");
    if !Truthy(id) {
      return Ok(None);
    }

    var frequency :- Lookup(d.downlinkLow, "downlink_low");
    if d.drift.Some? {
      var drift :- FloatDivide(d.drift.value, 1000000000.0);
      frequency :- FloatMultiply(frequency, 1.0 + drift.r);
    }

    var norad :- IntOf(id);
    var mode :- Lookup(d.mode, "mode");
    var description :- Lookup(d.description, "description");
    return Ok(Some(Link(norad, Transmitter(frequency, mode, description))));
  }

  /** With the catalog built, the run's outcome is decided by the transmitter records. */
  lemma JoinedByLinks(records: seq<Record>, active: string, timestamp: int, catalog: Dict<int, Triple>)
    requires Catalog(Triples(Text.Split(active, '\n'))) == Ok(catalog)
    ensures Links(records).Err? ==> Joined(records, active, timestamp) == Err(Links(records).error)
    ensures Links(records).Ok? ==>
      Joined(records, active, timestamp) == Ok(Document(timestamp, Selected(catalog.keys, catalog.entries, Links(records).value)))
  {
  }

  /** Appending link `link` to the satellite it names keeps the mirror, with `link` added to the links. */
  lemma MirrorsAttach(satellites: Dict<int, Satellite>, catalog: Dict<int, Triple>, links: seq<Link>, link: Link)
    requires catalog.Valid()
    requires satellites.keys == catalog.keys && satellites.entries.Keys == catalog.entries.Keys
    requires forall m, n :: m in satellites.entries && n in satellites.entries && m != n ==>
      satellites.entries[m] != satellites.entries[n]
    requires forall n :: n in satellites.entries && n != link.norad ==>
      Represents(satellites.entries[n], n, catalog.entries[n], AttachedTo(links, n))
    requires link.norad in satellites.entries ==>
      Represents(satellites.entries[link.norad], link.norad, catalog.entries[link.norad],
                 AttachedTo(links, link.norad) + [link.transmitter])
    ensures Mirrors(satellites, catalog, links + [link])
  {
    assert (links + [link])[..|links|] == links;
  }

  /** One more triple: the catalog grows by one `Put`, or the whole run raises. */
  lemma CatalogNext(triples: seq<Triple>, k: nat, catalog: Dict<int, Triple>)
    requires k < |triples|
    requires Catalog(triples[..k]) == Ok(catalog)
    ensures CatalogNumber(triples[k].line1).Err? ==>
      Catalog(triples) == Err(CatalogNumber(triples[k].line1).error)
    ensures CatalogNumber(triples[k].line1).Ok? ==>
      Catalog(triples[..k + 1]) == Ok(catalog.Put(CatalogNumber(triples[k].line1).value, triples[k]))
  {
    PutAllStep(triples, CatalogKey, k);
    if CatalogNumber(triples[k].line1).Err? {
      PutAllErrorSticks(triples, CatalogKey, k + 1);
    }
  }

  /** Storing a new satellite object keeps the object dictionary a mirror of the catalog. */
  lemma MirrorsPut(satellites: Dict<int, Satellite>, catalog: Dict<int, Triple>, n: int, sat: Satellite, t: Triple)
    requires Mirrors(satellites, catalog, [])
    requires Represents(sat, n, t, [])
    requires sat !in satellites.entries.Values
    ensures Mirrors(satellites.Put(n, sat), catalog.Put(n, t), [])
  {
  }

  /**
    The first loop of process: one `Satellite` per triple of `lines`, stored
    under its catalog number (a later triple replaces an earlier one with the
    same number), or the exception of the first catalog number that does not
    parse. The objects are new and mirror `Catalog` of the triples.
   */
  method IndexSatellites(lines: seq<string>) returns (r: Result<Dict<int, Satellite>, Error>, ghost catalog: Dict<int, Triple>)
    ensures r.Err? ==> Catalog(Triples(lines)) == Err(r.error)
    ensures r.Ok? ==> Catalog(Triples(lines)) == Ok(catalog) && Mirrors(r.value, catalog, [])
    ensures r.Ok? ==> forall n :: n in r.value.entries ==> fresh(r.value.entries[n])
  {
    var satellites: Dict<int, Satellite> := Empty();
    catalog := Empty();
    var triples := Triples(lines);
    for k := 0 to |triples|
      invariant Catalog(triples[..k]) == Ok(catalog)
      invariant Mirrors(satellites, catalog, [])
      invariant forall n :: n in satellites.entries ==> fresh(satellites.entries[n])
    {
      var t := triples[k];
      CatalogNext(triples, k, catalog);
      var norad :- CatalogNumber(t.line1);
      var sat := new Satellite(t.name, t.line1, t.line2, norad);
      MirrorsPut(satellites, catalog, norad, sat, t);
      satellites := satellites.Put(norad, sat);
      catalog := catalog.Put(norad, t);
    }
    assert triples[..|triples|] == triples;
    r := Ok(satellites);
  }

  /**
    `if norad in satellites: satellites[norad].transmitters.append(t)`: the
    satellite of the link's number, and no other object, gets the transmitter
    appended, which keeps the object dictionary a mirror with the link added.
   */
  method Attach(satellites: Dict<int, Satellite>, ghost catalog: Dict<int, Triple>, ghost links: seq<Link>, link: Link)
    requires Mirrors(satellites, catalog, links)
    modifies set n | n in satellites.entries && n == link.norad :: satellites.entries[n]
    ensures Mirrors(satellites, catalog, links + [link])
  {
    if link.norad in satellites.entries {
      var sat := satellites.entries[link.norad];
      sat.transmitters := sat.transmitters + [link.transmitter];
    }
    MirrorsAttach(satellites, catalog, links, link);
  }

  /** `[s.json() for s in satellites.values() if s.transmitters]` over the object dictionary is the selection of the catalog value. */
  method EmitSelected(satellites: Dict<int, Satellite>, ghost catalog: Dict<int, Triple>, ghost links: seq<Link>) returns (out: seq<Value>)
    requires Mirrors(satellites, catalog, links)
    ensures out == Selected(catalog.keys, catalog.entries, links)
  {
    var sats := satellites.Values();
    EmitMatchesSelected(sats, catalog.keys, catalog.entries, links);
    out := EmitSatellites(sats);
  }

  /**
    process(transmitters, active): builds the catalog of `Satellite` objects
    from the TLE text, appends each passing transmitter to the satellite of
    its catalog number, and returns the output document; any exception of
    the source is returned as Err and ends the run.
   */
  method Process(transmitters: seq<Record>, active: string, timestamp: int) returns (r: Result<Value, Error>)
    ensures r == Joined(transmitters, active, timestamp)
  {
    var lines := Text.Split(active, '\n');
    var indexed, catalog := IndexSatellites(lines);
    var satellites :- indexed;
    JoinedByLinks(transmitters, active, timestamp, catalog);

    ghost var links: seq<Link> := [];
    for i := 0 to |transmitters|
      invariant Links(transmitters[..i]) == Ok(links)
      invariant Mirrors(satellites, catalog, links)
      invariant forall n :: n in satellites.entries ==> fresh(satellites.entries[n])
    {
      var d := transmitters[i];
      ghost var read := ReadRecord(d);
      if read.Err? {
        LinksRaise(transmitters, i, links);
      } else {
        LinksExtend(transmitters, i, links);
      }
      var step :- ReadTransmitter(d);
      if step.None? {
        continue;
      }
      Attach(satellites, catalog, links, step.value);
      links := links + [step.value];
    }
    assert transmitters[..|transmitters|] == transmitters;

    var emitted := EmitSelected(satellites, catalog, links);
    r := Ok(Document(timestamp, emitted));
  }
}
