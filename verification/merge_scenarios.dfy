/** The merge scenario of the client's test script: two chunk streams that
    list the same three accounts, the second in a different order. */
module MergeScenarios {
  import opened Base
  import opened Text
  import opened Json
  import opened Errors
  import opened Pagination
  import opened Merge

  function Rec2(f1: string, v1: string, f2: string, v2: string): Record
  {
    map[f1 := Str(v1), f2 := Str(v2)]
  }

  const NamesStream := Stream([Rec2("Id", "AAA", "Name", "Acme"),
                               Rec2("Id", "BBB", "Name", "Beta"),
                               Rec2("Id", "CCC", "Name", "Gamma")], None)

  const IndustriesStream := Stream([Rec2("Id", "BBB", "Industry", "Finance"),
                                    Rec2("Id", "AAA", "Industry", "Tech"),
                                    Rec2("Id", "CCC", "Industry", "Health")], None)

  function Account(id: string, name: string, industry: string): Record
  {
    map["Id" := Str(id), "Name" := Str(name), "Industry" := Str(industry)]
  }

  /** The lock-step merge compares the first row's keys and gives up. */
  lemma LockStepRejectsReorderedStream()
    ensures LockStep([NamesStream, IndustriesStream], "Id")
         == Stream([], Some(PrimaryKeyNotMatch(Str("AAA"), Str("BBB"))))
  {
    var streams := [NamesStream, IndustriesStream];
    assert Reaches(streams, 0);
    var row := Column(streams, 0);
    assert row == [NamesStream.records[0], IndustriesStream.records[0]];
    assert map[] + row[0] == row[0];
    assert MergeRowFrom(row, "Id", 1, Str("AAA"), row[0])
        == Err(PrimaryKeyNotMatch(Str("AAA"), Str("BBB")));
    assert MergeRow(row, "Id") == Err(PrimaryKeyNotMatch(Str("AAA"), Str("BBB")));
    assert MinLen(streams) == 3;
    LockStepFromStep(streams, "Id", 0);
  }

  /** Two streams with distinct keys each: the records with a key they
      share are one from each, joined left to right. */
  lemma JoinedRecord(a: seq<Record>, b: seq<Record>, key: string, ia: nat, ib: nat, k: Json)
    requires HasKeys(a, key) && HasKeys(b, key)
    requires Distinct(Keys(a, key)) && Distinct(Keys(b, key))
    requires ia < |a| && ib < |b| && a[ia][key] == k && b[ib][key] == k
    ensures HasKeys(a + b, key)
    ensures UnionAll(WithKey(a + b, key, k)) == a[ia] + b[ib]
  {
    WithKeyConcat(a, b, key, k);
    WithKeyDistinct(a, key, ia, k);
    WithKeyDistinct(b, key, ib, k);
    UnionAllPair(a[ia], b[ib]);
  }

  lemma ScenarioKeys()
    ensures Clean([NamesStream, IndustriesStream], "Id")
    ensures HasKeys(NamesStream.records, "Id") && HasKeys(IndustriesStream.records, "Id")
    ensures Keys(NamesStream.records, "Id") == [Str("AAA"), Str("BBB"), Str("CCC")]
    ensures Keys(IndustriesStream.records, "Id") == [Str("BBB"), Str("AAA"), Str("CCC")]
  {
  }

  lemma AccountJoin(id: string, name: string, industry: string)
    ensures Rec2("Id", id, "Name", name) + Rec2("Id", id, "Industry", industry) == Account(id, name, industry)
  {
  }

  /** Two clean streams with distinct keys each: row `ia` of the
      key-buffered output joins record `ia` of the first stream with the
      record of the second that has the same key. */
  lemma BufferedTwoRow(a: seq<Record>, b: seq<Record>, key: string, ia: nat, ib: nat)
    requires Clean([Stream(a, None), Stream(b, None)], key)
    requires HasKeys(a, key) && HasKeys(b, key)
    requires Distinct(Keys(a, key)) && Distinct(Keys(b, key))
    requires ia < |a| && ib < |b| && a[ia][key] == b[ib][key]
    ensures Buffered([Stream(a, None), Stream(b, None)], key).error.None?
    ensures |Buffered([Stream(a, None), Stream(b, None)], key).records| == |a|
    ensures Buffered([Stream(a, None), Stream(b, None)], key).records[ia] == a[ia] + b[ib]
  {
    var streams := [Stream(a, None), Stream(b, None)];
    AllRecordsPair(Stream(a, None), Stream(b, None));
    BufferedSpec(streams, key);
    DedupOfDistinct(Keys(a, key));
    JoinedRecord(a, b, key, ia, ib, a[ia][key]);
  }

  lemma BufferedScenarioRow(ia: nat, ib: nat, id: string, name: string, industry: string)
    requires ia < 3 && ib < 3
    requires NamesStream.records[ia] == Rec2("Id", id, "Name", name)
    requires IndustriesStream.records[ib] == Rec2("Id", id, "Industry", industry)
    ensures Buffered([NamesStream, IndustriesStream], "Id").error.None?
    ensures |Buffered([NamesStream, IndustriesStream], "Id").records| == 3
    ensures Buffered([NamesStream, IndustriesStream], "Id").records[ia] == Account(id, name, industry)
  {
    ScenarioKeys();
    BufferedTwoRow(NamesStream.records, IndustriesStream.records, "Id", ia, ib);
    AccountJoin(id, name, industry);
  }

  /** The key-buffered merge joins each account's name and industry. */
  lemma BufferedJoinsReorderedStream()
    ensures Buffered([NamesStream, IndustriesStream], "Id")
         == Stream([Account("AAA", "Acme", "Tech"),
                    Account("BBB", "Beta", "Finance"),
                    Account("CCC", "Gamma", "Health")], None)
  {
    BufferedScenarioRow(0, 1, "AAA", "Acme", "Tech");
    BufferedScenarioRow(1, 0, "BBB", "Beta", "Finance");
    BufferedScenarioRow(2, 2, "CCC", "Gamma", "Health");
  }

  lemma UnionAllPair(r: Record, s: Record)
    ensures UnionAll([r, s]) == r + s
  {
    assert [r, s][..1] == [r];
    UnionAllSingle(r);
  }
}
