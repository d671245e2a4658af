/**
  The Wolverhampton importer's two record mappers. A polling-station record may
  serve several districts: its `DIS_CODE` lists them separated by commas, and
  one station is emitted per code, so that each district record, whose station
  id is its own `DIS_CODE`, finds its station. The geometry that
  `extract_geometry` builds is an opaque value here.
*/
module Wolverhampton {
  import opened Text

  /** The fields of a station record the mapper reads. */
  datatype StationRecord = StationRecord(disCode: string, address: string, postcode: string)

  /** The fields of a district record the mapper reads. */
  datatype DistrictRecord = DistrictRecord(disCode: string, ward: string)

  /** One dictionary of the list `station_record_to_dict` returns. */
  datatype Station<G> = Station(internalCouncilId: string, address: string, postcode: string, location: G)

  /** The dictionary `district_record_to_dict` returns. */
  datatype District<A> = District(internalCouncilId: string, name: string, area: A, pollingStationId: string)

  /** `[code.strip() for code in record['DIS_CODE'].split(',')]` */
  function StationCodes(disCode: string): (codes: seq<string>)
    ensures |codes| == |Split(disCode, ',')| >= 1
    ensures forall i :: 0 <= i < |codes| ==> codes[i] == Strip(Split(disCode, ',')[i])
  {
    var pieces := Split(disCode, ',');
    seq(|pieces|, i requires 0 <= i < |pieces| => Strip(pieces[i]))
  }

  /** `station_record_to_dict`: one station per code, in order, all at the same place. */
  method StationRecordToDict<G>(record: StationRecord, location: G) returns (stations: seq<Station<G>>)
    ensures |stations| == |StationCodes(record.disCode)|
    ensures forall i :: 0 <= i < |stations| ==>
      stations[i] == Station(StationCodes(record.disCode)[i], record.address, record.postcode, location)
  {
    var codes := StationCodes(record.disCode);
    stations := EmitStations(codes, record, location);
  }

  /** The loop of `station_record_to_dict` that appends one dictionary per code. */
  method EmitStations<G>(codes: seq<string>, record: StationRecord, location: G) returns (stations: seq<Station<G>>)
    ensures |stations| == |codes|
    ensures forall i :: 0 <= i < |stations| ==> stations[i] == Station(codes[i], record.address, record.postcode, location)
  {
    stations := [];
    for i := 0 to |codes|
      invariant |stations| == i
      invariant forall j :: 0 <= j < i ==> stations[j] == Station(codes[j], record.address, record.postcode, location)
    {
      stations := stations + [Station(codes[i], record.address, record.postcode, location)];
    }
  }

  /** `district_record_to_dict` */
  function DistrictRecordToDict<A>(record: DistrictRecord, area: A): (d: District<A>)
    ensures d.internalCouncilId == d.pollingStationId == record.disCode
    ensures d.area == area
    ensures |d.name| == |record.ward| + 3 + |record.disCode|
    ensures d.name[..|record.ward|] == record.ward
    ensures d.name[|record.ward|..|record.ward| + 3] == " - "
    ensures d.name[|record.ward| + 3..] == record.disCode
  {
    var name := record.ward + " - " + record.disCode;
    assert name[|record.ward|..] == " - " + record.disCode;
    District(record.disCode, name, area, record.disCode)
  }

  /** No code contains a comma, and none starts or ends with whitespace. */
  lemma StationCodesAreClean(disCode: string)
    ensures forall i :: 0 <= i < |StationCodes(disCode)| ==>
      var c := StationCodes(disCode)[i];
      ',' !in c && (c == [] || (!IsSpace(c[0]) && !IsSpace(c[|c| - 1])))
  {
    var pieces := Split(disCode, ',');
    forall i | 0 <= i < |pieces| ensures ',' !in Strip(pieces[i]) {
      StripKeepsOut(pieces[i], ',');
    }
  }

  /** A `DIS_CODE` without a comma gives one station, whose id is the stripped code. */
  lemma SingleCode(disCode: string)
    requires ',' !in disCode
    ensures StationCodes(disCode) == [Strip(disCode)]
  {
    var codes := StationCodes(disCode);
    assert Split(disCode, ',') == [disCode];
    assert |codes| == 1 && codes[0] == Strip(disCode);
  }

  /** A `DIS_CODE` listing clean codes with commas between them gives exactly those codes back. */
  lemma {:induction false} ListedCodes(codes: seq<string>)
    requires |codes| >= 1
    requires forall i :: 0 <= i < |codes| ==> ',' !in codes[i]
    requires forall i :: 0 <= i < |codes| ==> codes[i] == [] || (!IsSpace(codes[i][0]) && !IsSpace(codes[i][|codes[i]| - 1]))
    ensures StationCodes(Join(codes, ',')) == codes
  {
    SplitJoin(codes, ',');
    forall i | 0 <= i < |codes| ensures Strip(codes[i]) == codes[i] {
      StripUnpadded(codes[i]);
    }
  }

  /** Every district listed in a station's `DIS_CODE`, with or without whitespace
      around the commas, finds that station: a district whose own `DIS_CODE` is
      the k-th comma-separated piece stripped has as `polling_station_id` the
      `internal_council_id` of the k-th station emitted. */
  lemma DistrictsFindTheirStation<A>(pieces: seq<string>, k: nat, district: DistrictRecord, area: A)
    requires |pieces| >= 1 && k < |pieces|
    requires forall i :: 0 <= i < |pieces| ==> ',' !in pieces[i]
    requires district.disCode == Strip(pieces[k])
    ensures var ids := StationCodes(Join(pieces, ','));
      k < |ids| && DistrictRecordToDict(district, area).pollingStationId == ids[k]
  {
    SplitJoin(pieces, ',');
  }
}
