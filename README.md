# whatsup: the satellite/transmitter join, in Dafny

`update.py` builds the data file of the whatsup satellite tracker. `process`
takes two inputs: the transmitter list of the SatNOGS database, decoded from
JSON, and the CelesTrak TLE text of the active satellites. It then runs in
three steps:

1. It cuts the TLE text into lines, groups them in threes (name, TLE line 1,
   TLE line 2) and stores one `Satellite` per triple in a dict keyed by the
   catalog number `int(l2[2:7])`.
2. It walks the transmitter records. A record passes when `alive` is
   truthy, `status == "active"` and `norad_cat_id` is truthy. A passing
   record's frequency is drift-corrected when a `drift` key is present. The
   record's `Transmitter` is then appended to the satellite with that
   catalog number, if there is one.
3. It emits a timestamp and the JSON of every satellite that received at
   least one transmitter, in dict order.

The project has ten modules. Seven hold the model:

- `Wrappers`: Option and Result.
- `Errors`: KeyError, TypeError, ValueError.
- `Text`: `str.split`, `str.strip`, slicing, and `int()` on a `str`.
- `Json`: decoded JSON values, truthiness, `int()`, float `/` and `*`.
- `OrderedDict`: an insertion-ordered dict. It also holds `PutAll`, the
  loop `for x in xs: d[key(x)] = x` over a key function that may raise.
- `Sequences`: the two list-building loops as generic folds: the filtered
  comprehension `FilterMap` with its rank, and `Collect`, which appends what
  each element yields and stops at the first exception.
- `Update`: the entities, and the two descriptions of the join.
  - `Joined` is a pure function of the inputs.
  - `Process` is the procedure of the source. It builds `Satellite` objects,
    appends to their `transmitters` fields in place, and is proved to return
    `Joined`. The ghost predicate `Mirrors` ties the object dict to the
    catalog value: same keys in the same order, one distinct object per key,
    and each object holding the transmitters linked to its key so far.

The other three hold proofs: `UpdateProperties` and `JoinProperties` prove the
properties of the model, and `IssExample` works one complete run on the ISS.

Points where the code decides:

- The catalog number is read from `l2`, the second line of each triple.
  The source stores that line as `tle1`, so it is TLE line 1, not line 2.
  The model follows the code.
- `not d["norad_cat_id"]` tests Python truthiness. `None`, `0`, `0.0` and
  `""` are skipped, but the string `"0"` is truthy: it passes, and
  `int("0")` gives 0.
- Every key but `drift` is read by subscript, so a missing key raises
  KeyError once its read is reached. `status` is read only after a truthy
  `alive`, and `norad_cat_id` only after `status == "active"`; a record
  that one filter skips never reaches the later reads. The reads after the
  filters come before the membership test, so a passing record whose
  catalog number is unknown still raises when `downlink_low`, `mode` or
  `description` is missing, or when a present `drift` or the frequency it
  corrects is not a number.
- A line of 3 to 6 characters yields a shorter catalog number. An empty or
  digit-free slice raises ValueError. So does a slice that mixes digits with
  a letter or another character that cannot occur in an integer literal, and
  so does one with a blank between its characters.
- Python exceptions are `Err` values. The first one raised ends the run.

## Model

| member | source | states |
|---|---|---|
| Text.Split | update.py:55 | `active.split("\n")`: at least one piece, no piece contains the separator, and joining the pieces with it gives back the text |
| Text.SplitJoin | update.py:55 | splitting the join of separator-free lines gives back exactly those lines |
| Text.SplitTrailingSeparator | update.py:55 | a trailing newline adds exactly one empty last line |
| Text.Trim | update.py:26 | the result is the slice left after the longest leading run of blanks; everything after it is blank; it neither starts nor ends with a blank |
| Text.Strip | update.py:26 | `name.strip()` is the slice of the name between its leading and its trailing whitespace: everything before and after it is whitespace, and it neither starts nor ends with whitespace |
| Text.TrimIdempotent | update.py:26 | stripping twice is stripping once |
| Text.TrimPadded | update.py:26 | stripping removes exactly the blank padding around a name that has none of its own |
| Text.Slice | update.py:58 | `l2[2:7]` is clamped to the line: its length is `min(7, len) - 2`, or 0 for a line shorter than 3, and it holds the characters from offset 2 on |
| Text.ParseInt | update.py:58 | `int(s)` fails only with `ValueError(s)`, and succeeds only when `s` contains a digit |
| Text.ParseDigits | update.py:58 | a non-empty run of ASCII digits parses to the number it spells |
| Text.ParseIntStrayCharacter | update.py:58 | a character that is no digit, underscore, sign or whitespace, anywhere in `s`, makes `int(s)` raise ValueError(s) |
| Text.ParseIntInnerSpace | update.py:58 | whitespace between two other characters of `s` makes `int(s)` raise ValueError(s) |
| Text.ParseDecimal | update.py:80 | `int(str(n)) == n` for every integer n (without the 4300-digit limit of CPython, see Left out) |
| Json.FloatDivide | update.py:77 | `d["drift"] / 1.0e9` succeeds exactly on numbers (bool, int, float); the quotient times 1e9 is the number; anything else raises TypeError |
| Json.FloatMultiply | update.py:78 | `frequency * x` succeeds exactly on numbers; multiplying by 1.0 keeps the value |
| Json.Truncate | update.py:80 | `int()` of a float truncates toward zero: the result is within 1 of the input, on the side of 0 |
| Json.IntOf | update.py:80 | `int(v)` raises for None, lists and dicts, and is the identity on integers |
| Json.StringTruthiness | update.py:71-80 | the string "0" is truthy and converts to 0, " 7 " converts to 7, while 0, "" and None are falsy |
| Json.Truthy | update.py:65-72 | Python's `bool(v)` behind the three `not` tests; Json.StringTruthiness and JoinProperties.ReadRecordSkipped state what it decides |
| OrderedDict.Empty | update.py:53 | `{}` is a valid dict with no keys |
| OrderedDict.Dict.Put | update.py:59 | `d[k] = v` keeps the dict valid and replaces the value; an existing key keeps its place, a new key goes last |
| OrderedDict.Dict.Values | update.py:91 | `d.values()` has one entry per key, and every stored value is among them |
| OrderedDict.IndexOf | update.py:91 | the position of a key in the insertion order: it holds that key, and no earlier position does |
| OrderedDict.PutAll | update.py:57-59 | the loop `for x in xs: d[key(x)] = x` over a key that may raise; PutAllValid, PutAllOkIff, PutAllFirstError, PutAllKeys, PutAllLastWins and PutAllFirstSeenOrder state its content |
| OrderedDict.PutNewKeyOrder | update.py:59 | a key stored for the first time comes after every key already present |
| OrderedDict.PutAllValid | update.py:57-59 | the dict after the loop is valid, and every key maps to an element whose key it is |
| OrderedDict.PutAllStep | update.py:57-59 | one more element either stores it under its key, or raises that key's exception, or keeps an earlier exception |
| OrderedDict.PutAllErrorSticks | update.py:58 | once a key raises, the loop ends with that exception |
| OrderedDict.PutAllOkIff | update.py:57-59 | the loop completes if and only if no key raises |
| OrderedDict.PutAllFirstError | update.py:58 | the exception is that of the first element whose key raises |
| OrderedDict.PutAllKeys | update.py:57-59 | a number is a key if and only if some element has that key |
| OrderedDict.PutAllLastWins | update.py:59 | with duplicate keys the last element wins |
| OrderedDict.PutAllKeysGrow | update.py:57-59 | the keys after part of the loop are a prefix of the final keys |
| OrderedDict.PutAllNewKeyOrder | update.py:59 | a key first stored at element b ends up after every key stored before b |
| OrderedDict.PutAllFirstSeenOrder | update.py:59 | keys keep their first-seen order even when later duplicates replace their values |
| Sequences.FilterMap | update.py:91 | a filtered comprehension has no more elements than its input |
| Sequences.FilterMapMembers | update.py:91 | a value is in the comprehension if and only if some element yields it |
| Sequences.FilterMapLength | update.py:91 | the comprehension has one entry per element that passes the condition |
| Sequences.FilterMapAt | update.py:91 | the entry of the i-th element sits at its rank, and the entries follow input order |
| Sequences.RankIncreasing | update.py:91 | the rank grows strictly past every element that passes |
| Sequences.FilterMapAgree | update.py:91 | conditions and values that agree on every element give the same comprehension |
| Sequences.Collect | update.py:63-84 | the loop that appends what each element yields and stops at the first exception; the Collect lemmas below state its content |
| Sequences.CollectStep | update.py:63-84 | one more element extends the values by what it yields, keeps them when it yields nothing, or raises |
| Sequences.CollectErrorSticks | update.py:63-84 | an exception in a prefix is the exception of the whole loop |
| Sequences.CollectLength | update.py:63-84 | at most one value per element |
| Sequences.CollectAppend | update.py:63-84 | the values of `a + b` are those of `a` then those of `b`, and an exception in `a` comes first |
| Sequences.CollectOne | update.py:63-84 | the values of a single element: its exception, nothing, or its value |
| Sequences.CollectOkIff | update.py:63-84 | the loop runs to the end if and only if no element raises |
| Sequences.CollectFirstError | update.py:63-84 | the loop's exception is that of the first raising element |
| Sequences.CollectMembers | update.py:63-84 | a value is collected if and only if some element yields it |
| Update.Transmitter.ToJson | update.py:15-20 | `Transmitter.json()` has exactly the keys frequency, mode and description, and the transmitter can be read back from it |
| Update.TransmittersJson | update.py:39 | `[t.json() for t in self.transmitters]` has one object per transmitter, and the i-th reads back as the i-th transmitter |
| Update.SatelliteJson | update.py:33-40 | `Satellite.json()` has exactly the five keys, with the name, both TLE lines verbatim and the catalog number; each transmitter can be read back from it, in order |
| Update.Satellite.constructor | update.py:25-31 | the name is stripped, the TLE lines and the number are kept, and the transmitter list starts empty |
| Update.Satellite.ToJson | update.py:33-40 | `Satellite.json()` of the object's current fields; Update.SatelliteJson states its keys and values |
| Update.Triples | update.py:57 | zip-shortest grouping gives `len(lines) // 3` triples, the k-th made of lines 3k, 3k+1 and 3k+2 |
| Update.CatalogNumber | update.py:58 | `int(l2[2:7])`; UpdateProperties.CatalogNumberOfDigits, CatalogNumberNeedsDigit, CatalogNumberStrayCharacter and CatalogNumberInnerSpace state its values and its errors |
| Update.CatalogKey | update.py:58-59 | the key under which a triple is stored, its catalog number; Update.Catalog states that every key is the number of its triple |
| Update.Catalog | update.py:57-59 | the catalog is a valid dict, and every key is the catalog number of the triple stored under it |
| Update.Corrected | update.py:76-78 | the drift correction succeeds exactly on numbers; the result is `f * (1 + drift / 1e9)`; zero drift leaves the value |
| Update.ReadRecord | update.py:65-84 | a passing record has truthy alive, status "active", a truthy norad_cat_id whose `int()` is the link's number, and its mode and description; without drift its frequency is downlink_low |
| Update.ReadTransmitter | update.py:65-84 | the loop body, with `continue`, exceptions and the in-place `frequency *=`, computes `ReadRecord` |
| Update.Links | update.py:63-84 | at most one link per record |
| Update.LinksExtend | update.py:63-84 | a record that reads without raising adds its link, or nothing when skipped |
| Update.LinksRaise | update.py:63-84 | a record that raises after the earlier records were read makes the whole run raise its exception |
| Update.AttachedTo | update.py:86-87 | the transmitters appended to satellite k, in link order; JoinProperties.AttachedAppend, AttachedMembers, AttachOther and AttachSame state its content |
| Update.SatelliteOf | update.py:25-40 | the JSON of the satellite built from a triple: stripped name, both lines, number and transmitters, as Update.SatelliteJson states |
| Update.Emitted | update.py:91 | the entry a key contributes to the output: its satellite's JSON when it holds a transmitter, else nothing; JoinProperties.SelectedMembers states it |
| Update.Selected | update.py:91 | `[s.json() for s in satellites.values() if s.transmitters]` over the catalog value; JoinProperties.SelectedMembers, SelectedInOrder and CatalogSelectedMembers state its content |
| Update.Document | update.py:89-92 | the output object with the timestamp and the satellites; JoinProperties.OutputSatellites states what it holds |
| Update.Joined | update.py:45-94 | `process` as a function of its inputs; Update.Process is proved to compute it, and UpdateProperties and JoinProperties state its properties |
| Update.EmitSatellites | update.py:91 | the comprehension over the satellite objects; Update.EmitMatchesSelected proves it equal to Update.Selected |
| Update.CatalogNext | update.py:57-59 | one more triple stores it under its catalog number, or ends in that number's exception |
| Update.MirrorsPut | update.py:59 | storing a fresh satellite keeps the object dict a mirror of the catalog |
| Update.IndexSatellites | update.py:53-59 | the first loop returns fresh, distinct `Satellite` objects, one per catalog key, mirroring `Catalog`, or `Catalog`'s exception |
| Update.MirrorsAttach | update.py:86-87 | appending to the satellite of the link's number, and to no other, keeps the mirror with the link added |
| Update.Attach | update.py:86-87 | `satellites[norad].transmitters.append(t)` when the number is known changes only that satellite and keeps the object dict a mirror with the link added |
| Update.EmitSelected | update.py:91 | the comprehension over the satellite objects' values gives exactly the selection over the catalog value |
| Update.JoinedByLinks | update.py:63-92 | once the catalog is built, the result is the records' exception or the document of the selected satellites |
| Update.EmitMatchesSelected | update.py:91 | the comprehension over the satellite objects equals the selection over the catalog value |
| Update.Process | update.py:45-94 | `process` returns exactly `Joined` of its inputs: the same document, or the same exception |
| UpdateProperties.TriplesIgnoreTrailing | update.py:55-57 | 1 or 2 lines after the last full triple are ignored |
| UpdateProperties.TrailingNewlineIgnored | update.py:55-57 | a final newline after complete triples does not change the result |
| UpdateProperties.CatalogNumberOfDigits | update.py:58 | five digits at offsets 2 to 6 are read as that decimal number |
| UpdateProperties.CatalogNumberNeedsDigit | update.py:58 | a slice with no digit, including an empty one, raises ValueError of the slice |
| UpdateProperties.CatalogNumberStrayCharacter | update.py:58 | a slice character that cannot occur in an integer literal, such as a letter, raises ValueError of the slice |
| UpdateProperties.CatalogNumberInnerSpace | update.py:58 | a blank between two other slice characters raises ValueError of the slice |
| UpdateProperties.CatalogNumberTrailingLetter | update.py:58 | "1 2554U" raises ValueError('2554U') |
| UpdateProperties.CatalogNumberLeadingLetter | update.py:58 | "1 A0001" raises ValueError('A0001') |
| UpdateProperties.CatalogNumberSplitDigits | update.py:58 | "1 25 44" raises ValueError('25 44') |
| UpdateProperties.CatalogNumberIss | update.py:58 | "1 25544U" gives 25544 |
| UpdateProperties.CatalogNumberShortLine | update.py:58 | the 5-character line "1 255" gives 255 and does not raise |
| UpdateProperties.CatalogNumberCutOff | update.py:58 | "1 " raises ValueError('') |
| JoinProperties.ReadRecordPasses | update.py:65-84 | a record that passes the three filters and whose later reads succeed yields exactly its link |
| JoinProperties.ReadRecordSkipped | update.py:65-72 | a record is skipped if and only if a filter fails on a key that is present |
| JoinProperties.ReadRecordMissingKeys | update.py:65-82 | in reading order, and only once each read is reached: missing alive, status, norad_cat_id, downlink_low, mode and description raise KeyError; a non-number drift raises TypeError for `/`, a non-number downlink_low with a drift TypeError for `*`, and a failing `int()` of norad_cat_id its own error |
| JoinProperties.DriftExample | update.py:76-78 | 100000000 with drift 500 gives 100000050.0 |
| JoinProperties.MissingModeExample | update.py:80-86 | a passing record without `mode` aborts the run with KeyError('mode') even when no satellite matches |
| JoinProperties.RejectedRecordInvisible | update.py:65-72 | a skipped record, wherever it stands, does not change the links |
| JoinProperties.AttachedAppend | update.py:87 | appending keeps order: the transmitters of earlier links come first |
| JoinProperties.AttachedMembers | update.py:86-87 | a transmitter is listed under k if and only if a link asks for k with it |
| JoinProperties.TransmitterOrder | update.py:63-87 | each satellite's transmitters follow the order of their records in the feed |
| JoinProperties.AttachOther | update.py:86-87 | a link for another number leaves a satellite's list unchanged |
| JoinProperties.AttachSame | update.py:87 | a link for k appends its transmitter to the end of k's list |
| JoinProperties.SelectedMembers | update.py:91 | an output entry is exactly the JSON of a key's satellite that received a transmitter |
| JoinProperties.SelectedInOrder | update.py:91 | the output lists the kept satellites in key order, one entry each |
| JoinProperties.SelectedUnaffected | update.py:91 | keys with the same transmitter lists give the same output |
| JoinProperties.CatalogSelectedMembers | update.py:91 | over a catalog: an output entry is exactly a catalog satellite with at least one transmitter |
| JoinProperties.OutputSatellites | update.py:89-92 | the document holds exactly the catalog satellites with transmitters, each with its linked transmitters |
| JoinProperties.RejectedRecordIgnored | update.py:65-72 | a skipped record can be removed from the feed without changing the result |
| JoinProperties.UnmatchedRecordDropped | update.py:63-87 | a passing record for an unknown catalog number changes nothing, wherever it stands in the feed |
| JoinProperties.MatchedLinks | update.py:84-87 | a passing record adds its link at the end |
| JoinProperties.MatchedOutput | update.py:86-91 | a link to a catalog entry puts that entry in the output, with its transmitter last |
| JoinProperties.MatchedRecordAppended | update.py:84-91 | a passing record for a known number puts that satellite in the output with the record's transmitter last |
| JoinProperties.RaisingRecordAborts | update.py:63-84 | after the catalog is built, the first raising record decides the result |
| IssExample.IssLines | update.py:55 | the three ISS lines joined by newlines split back into those lines |
| IssExample.IssCatalog | update.py:57-59 | the ISS triple is stored under 25544 |
| IssExample.IssId | update.py:71-80 | the catalog number given as the integer 25544 or as the string "25544" is truthy and converts to 25544 |
| IssExample.IssLinks | update.py:63-84 | the ISS downlink record, with either spelling of its catalog number, yields one link for 25544 with its frequency unchanged |
| IssExample.IssName | update.py:26 | the padded name line strips to "ISS (ZARYA)" |
| IssExample.IssSelected | update.py:91 | the output holds the ISS with its one downlink |
| IssExample.IssRun | update.py:45-94 | the ISS run, with the catalog number given as an integer or as a string, emits exactly one satellite, with stripped name, both lines, 25544 and the downlink |

## Left out

- The HTTP fetches of the two inputs and the UTF-8 decoding of the TLE text (update.py:101-102) are network I/O. The inputs are parameters: a sequence of records and a string.
- The check for the output directories and the writing of `data.json` (update.py:106-114) are filesystem I/O.
- The wall-clock reading `int(time.time() * 1000)` (update.py:90) is a parameter `timestamp` of `Joined` and `Process`.
- `json.dumps(..., indent=2)` (update.py:94) is a library serializer. The result is the structured `Json.Value` that would be serialized.
- Python floats are modelled as exact reals, so the drift correction (update.py:77-78) has no rounding, NaN or infinities. For the same reason `int()` of an infinite or NaN float cannot arise.
- `int()` on a string accepts only ASCII digits. CPython also accepts other Unicode decimal digits; those are treated as ValueError here.
- Text.ParseInt and Text.ParseDecimal: CPython 3.11 and later (and the security releases of 3.7 to 3.10) raise ValueError for `int()` of a decimal string with more than 4300 digits, and for `str()` of an integer that long. The model has no such limit: a `norad_cat_id` string of 5000 digits raises at update.py:80 in the source, but the model reads it and the record is dropped as unmatched. The limit is a configurable interpreter setting, not part of update.py.
- JSON objects are maps, so the key order of `json.dumps` is not represented.
- A record is a fixed set of seven optional fields. A feed element that is not a dict, and keys the code never reads, are not represented.
- Text.ParseInt: its contract only states the error value and that a digit is needed. What it computes for digit strings and decimal literals is stated by Text.ParseDigits and Text.ParseDecimal.
