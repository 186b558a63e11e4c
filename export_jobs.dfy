/** The job export (`export_jobs.py`): the items of the `jobs` partition become a CSV
    table whose columns are the keys of the first item, `PK` left out and `SK` headed
    `Job`, with one row per item. */
module ExportJobs {
  import opened Wrappers
  import Strings

  /** A table item: its attributes in the order the item lists them, each value as the
      CSV writer renders it. */
  datatype Item = Item(fields: seq<(string, string)>)

  /** The export's return value. */
  datatype ExportResponse = ExportResponse(statusCode: int, body: string)

  const NoRecordsRow: seq<string> := ["No records found"]

  const FileName: string := "transcribe_jobs.csv"

  /** `list(item.keys())`. */
  function Keys(item: Item): (r: seq<string>)
    ensures |r| == |item.fields|
    ensures forall i :: 0 <= i < |r| ==> r[i] == item.fields[i].0
  {
    seq(|item.fields|, i requires 0 <= i < |item.fields| => item.fields[i].0)
  }

  /** `item.get(k)`: the value of the first attribute named `k`. */
  function Lookup(fields: seq<(string, string)>, k: string): (r: Option<string>)
    ensures r.Some? <==> exists i :: 0 <= i < |fields| && fields[i].0 == k
  {
    if fields == [] then None
    else if fields[0].0 == k then Some(fields[0].1)
    else
      var rest := Lookup(fields[1..], k);
      assert forall i :: 1 <= i < |fields| ==> fields[i] == fields[1..][i - 1];
      assert rest.Some? ==> exists i :: 0 <= i < |fields[1..]| && fields[1..][i].0 == k;
      rest
  }

  /** The value `Lookup` finds is that of the first attribute named `k`; when an item's
      keys are distinct, as a DynamoDB item's are, that is the only one. */
  lemma {:induction false} LookupAt(fields: seq<(string, string)>, k: string, i: nat)
    requires i < |fields| && fields[i].0 == k
    requires forall j :: 0 <= j < i ==> fields[j].0 != k
    ensures Lookup(fields, k) == Some(fields[i].1)
    decreases i
  {
    if i > 0 {
      assert fields[1..][i - 1] == fields[i];
      assert forall j :: 0 <= j < i - 1 ==> fields[1..][j] == fields[j + 1];
      LookupAt(fields[1..], k, i - 1);
    }
  }

  /** `item.get(k, "")`. */
  function Cell(item: Item, k: string): string
  {
    match Lookup(item.fields, k)
    case Some(v) => v
    case None => ""
  }

  /** The keys kept as columns: all of them except `PK`, in order. */
  function UseKeys(keys: seq<string>): (r: seq<string>)
    ensures |r| <= |keys|
  {
    if keys == [] then []
    else UseKeys(keys[..|keys| - 1]) + (if keys[|keys| - 1] == "PK" then [] else [keys[|keys| - 1]])
  }

  /** The column title of a kept key. */
  function HeaderName(k: string): string
  {
    if k == "SK" then "Job" else k
  }

  /** The header row: the kept keys, `SK` titled `Job`. */
  function Header(keys: seq<string>): (r: seq<string>)
  {
    if keys == [] then []
    else Header(keys[..|keys| - 1]) + (if keys[|keys| - 1] == "PK" then [] else [HeaderName(keys[|keys| - 1])])
  }

  /** A key becomes a column exactly when it is not `PK`. */
  lemma {:induction false} UseKeysMembers(keys: seq<string>)
    ensures forall k :: k in UseKeys(keys) <==> k in keys && k != "PK"
    decreases |keys|
  {
    if keys != [] {
      var front := keys[..|keys| - 1];
      UseKeysMembers(front);
      assert keys == front + [keys[|keys| - 1]];
    }
  }

  /** The header has one title per column, each the title of that column's key. */
  lemma {:induction false} HeaderTitles(keys: seq<string>)
    ensures |Header(keys)| == |UseKeys(keys)|
    ensures forall i :: 0 <= i < |UseKeys(keys)| ==> Header(keys)[i] == HeaderName(UseKeys(keys)[i])
    decreases |keys|
  {
    if keys != [] {
      HeaderTitles(keys[..|keys| - 1]);
    }
  }

  /** The row of an item: its value under each column's key, `""` where it has none. */
  function Row(item: Item, useKeys: seq<string>): (r: seq<string>)
    ensures |r| == |useKeys|
  {
    seq(|useKeys|, i requires 0 <= i < |useKeys| => Cell(item, useKeys[i]))
  }

  /** The data rows of the first `n` items. */
  function Rows(records: seq<Item>, useKeys: seq<string>, n: nat): (r: seq<seq<string>>)
    requires n <= |records|
    ensures |r| == n
    ensures forall k :: 0 <= k < n ==> |r[k]| == |useKeys|
  {
    if n == 0 then [] else Rows(records, useKeys, n - 1) + [Row(records[n - 1], useKeys)]
  }

  /** The table written: a placeholder row when there are no items, otherwise the
      header and the item rows, all with the columns of the first item. */
  function Table(records: seq<Item>): seq<seq<string>>
  {
    if records == [] then [NoRecordsRow]
    else
      var keys := Keys(records[0]);
      [Header(keys)] + Rows(records, UseKeys(keys), |records|)
  }

  /** `{'statusCode': 200, 'body': f"CSV file '{filename}' created with {len(records)} records."}`. */
  function ResponseFor(count: nat): ExportResponse
  {
    ExportResponse(200, "CSV file '" + FileName + "' created with " + Strings.NatToString(count) + " records.")
  }

  /** The table is rectangular: with items, one header and one row per item, every row
      as wide as the header; without, the single placeholder row. */
  lemma TableShape(records: seq<Item>)
    ensures records == [] ==> Table(records) == [["No records found"]]
    ensures records != [] ==> |Table(records)| == 1 + |records|
    ensures records != [] ==> forall r :: r in Table(records) ==> |r| == |Header(Keys(records[0]))|
  {
    if records != [] {
      HeaderTitles(Keys(records[0]));
    }
  }

  /** Each cell of an item's row holds that item's value under the column's key, or
      `""`; the columns come from the first item alone, so an attribute only later items
      have is not written. */
  lemma TableCells(records: seq<Item>, i: nat, j: nat)
    requires i < |records| && j < |UseKeys(Keys(records[0]))|
    ensures var useKeys := UseKeys(Keys(records[0]));
      && Table(records)[i + 1][j] == Cell(records[i], useKeys[j])
      && useKeys[j] != "PK"
  {
    var useKeys := UseKeys(Keys(records[0]));
    UseKeysMembers(Keys(records[0]));
    assert useKeys[j] in useKeys;
    RowsAt(records, useKeys, i, |records|);
  }

  lemma {:induction false} RowsAt(records: seq<Item>, useKeys: seq<string>, i: nat, n: nat)
    requires i < n <= |records|
    ensures Rows(records, useKeys, n)[i] == Row(records[i], useKeys)
    decreases n
  {
    if i < n - 1 {
      RowsAt(records, useKeys, i, n - 1);
    }
  }

  /** The first item has every column it gave rise to: its own row has no `""`
      placeholders, only its values. */
  lemma FirstRowComplete(records: seq<Item>, j: nat)
    requires records != [] && j < |UseKeys(Keys(records[0]))|
    ensures Lookup(records[0].fields, UseKeys(Keys(records[0]))[j]).Some?
  {
    var keys := Keys(records[0]);
    UseKeysMembers(keys);
    var k := UseKeys(keys)[j];
    assert k in UseKeys(keys);
    var i :| 0 <= i < |keys| && keys[i] == k;
    assert records[0].fields[i].0 == k;
  }

  /** The header loop: `PK` skipped, `SK` titled `Job`, every other key kept as it
      is. */
  method HeaderAndKeys(keys: seq<string>) returns (header: seq<string>, useKeys: seq<string>)
    ensures header == Header(keys) && useKeys == UseKeys(keys)
  {
    header := [];
    useKeys := [];
    var i := 0;
    while i < |keys|
      invariant i <= |keys|
      invariant header == Header(keys[..i]) && useKeys == UseKeys(keys[..i])
    {
      assert keys[..i + 1][..i] == keys[..i];
      var k := keys[i];
      if k == "PK" {
      } else if k == "SK" {
        header := header + ["Job"];
        useKeys := useKeys + [k];
      } else {
        header := header + [k];
        useKeys := useKeys + [k];
      }
      i := i + 1;
    }
    assert keys[..i] == keys;
  }

  /** `lambda_handler`, given the items the query returned: the rows it writes to the
      CSV file and its response. */
  method LambdaHandler(records: seq<Item>) returns (rows: seq<seq<string>>, response: ExportResponse)
    ensures rows == Table(records)
    ensures response == ResponseFor(|records|)
  {
    if |records| > 0 {
      var header, useKeys := HeaderAndKeys(Keys(records[0]));
      rows := [header];
      var i := 0;
      while i < |records|
        invariant i <= |records|
        invariant rows == [header] + Rows(records, useKeys, i)
      {
        rows := rows + [Row(records[i], useKeys)];
        i := i + 1;
      }
    } else {
      rows := [NoRecordsRow];
    }
    response := ResponseFor(|records|);
  }
}
