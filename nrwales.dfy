/**
 * The Natural Resources Wales felling-licence scraper
 * (scrapers/nrwales.py): the rows of the register's table are kept when
 * they have cells, stamped with the register's last-updated time, and
 * mapped one by one onto application records.
 *
 * The page itself is not fetched or parsed here: the scraper's inputs are
 * whether the response was ok, the text of the `gmtLastUpdated` element and
 * the cell texts of each table row. "Today" is a parameter.
 */
module NrWales {
  import opened Wrappers
  import opened Text
  import opened Calendar

  const RegisterUrl := "https://naturalresources.wales/permits-and-permissions/tree-felling-and-other-regulations/forestry-public-register/felling-licence-register/?lang=en"

  /** The record `normalise` builds; `otherFields` holds "applicant_name". */
  datatype Licence = Licence(
    uid: string,
    reference: string,
    otherFields: map<string, string>,
    address: string,
    location: string,
    areaName: string,
    description: string,
    consultedDate: string,
    lastChanged: string,
    appType: string,
    url: string,
    lastScraped: string)

  /** What `normalise` can raise: a missing column, or a date not in `dd/mm/YYYY`. */
  datatype Failure = IndexError | ValueError

  // ---------------------------------------------------------------------------
  // Collecting the rows
  // ---------------------------------------------------------------------------

  /** The rows the scraper collects: each row with cells, followed by the stamp. */
  function KeptRows(rows: seq<seq<string>>, stamp: string): (r: seq<seq<string>>)
    ensures |r| <= |rows|
  {
    if rows == [] then []
    else if |rows[0]| > 0 then [rows[0] + [stamp]] + KeptRows(rows[1..], stamp)
    else KeptRows(rows[1..], stamp)
  }

  /**
   * The row loop of `scrape_felling_licenses`: the cell texts of each table
   * row that has cells, with the last-updated text appended.
   */
  method CollectRows(rows: seq<seq<string>>, stamp: string) returns (data: seq<seq<string>>)
    ensures data == KeptRows(rows, stamp)
  {
    data := [];
    var i := 0;
    while i < |rows|
      invariant 0 <= i <= |rows|
      invariant data + KeptRows(rows[i..], stamp) == KeptRows(rows, stamp)
    {
      assert rows[i..][1..] == rows[i + 1..];
      if |rows[i]| > 0 {
        var values := rows[i];
        values := values + [stamp];
        data := data + [values];
      }
      i := i + 1;
    }
    assert rows[i..] == [];
  }

  /** Collecting the rows of two stretches of the table is collecting each, in order. */
  lemma {:induction false} KeptRowsAppend(a: seq<seq<string>>, b: seq<seq<string>>, stamp: string)
    ensures KeptRows(a + b, stamp) == KeptRows(a, stamp) + KeptRows(b, stamp)
  {
    if a == [] {
      assert a + b == b;
    } else {
      assert (a + b)[1..] == a[1..] + b;
      KeptRowsAppend(a[1..], b, stamp);
    }
  }

  /**
   * A collected row is a row with at least one cell, one element longer, its
   * last element the stamp; and every row with cells is collected.
   */
  lemma {:induction false} KeptRowsMembers(rows: seq<seq<string>>, stamp: string)
    ensures forall x :: x in KeptRows(rows, stamp) <==> exists r :: r in rows && |r| > 0 && x == r + [stamp]
    ensures forall x :: x in KeptRows(rows, stamp) ==> |x| >= 2 && x[|x| - 1] == stamp
  {
    if rows != [] {
      KeptRowsMembers(rows[1..], stamp);
      assert forall r :: r in rows <==> r == rows[0] || r in rows[1..];
    }
  }

  /** One collected row per row with cells. */
  lemma {:induction false} KeptRowsCount(rows: seq<seq<string>>, stamp: string)
    ensures |KeptRows(rows, stamp)| == |set i | 0 <= i < |rows| && |rows[i]| > 0|
    decreases |rows|
  {
    var all := set i | 0 <= i < |rows| && |rows[i]| > 0;
    if rows == [] {
      assert all == {};
    } else {
      var n := |rows| - 1;
      var front := rows[..n];
      KeptRowsCount(front, stamp);
      KeptRowsAppend(front, [rows[n]], stamp);
      assert front + [rows[n]] == rows;
      var before := set i | 0 <= i < |front| && |front[i]| > 0;
      assert n !in before;
      if |rows[n]| > 0 {
        assert all == before + {n};
      } else {
        assert all == before;
      }
    }
  }

  // ---------------------------------------------------------------------------
  // The last-updated stamp
  // ---------------------------------------------------------------------------

  /** `strptime(text, "%Y-%m-%dT%H:%M:%SZ").strftime("%Y-%m-%d %H:%M:%S")`, `None` for ValueError. */
  function ReformatStamp(text: string): (r: Option<string>)
    ensures r.Some? <==> ParseIsoStampZ(text).Some?
    ensures r.Some? ==> |r.value| == 19 && r.value[10] == ' '
  {
    var t :- ParseIsoStampZ(text);
    Some(SpacedStamp(t))
  }

  /**
   * A well-formed stamp keeps its date and its time of day and only trades
   * the 'T' and the trailing 'Z' for one space.
   */
  lemma ReformatStampOfStamp(t: DateTime)
    requires ValidDateTime(t)
    ensures ReformatStamp(IsoStampZ(t)) == Some(IsoStampZ(t)[..10] + " " + IsoStampZ(t)[11..19])
  {
    IsoStampZRoundTrip(t);
    SpacedStampOfIsoStampZ(t);
  }

  // ---------------------------------------------------------------------------
  // Normalising one row
  // ---------------------------------------------------------------------------

  /** `normalise(row)`, on the day `today`. */
  function Normalise(row: seq<string>, today: Date): (r: Result<Licence, Failure>)
    requires ValidDate(today)
    ensures r == Err(IndexError) <==> |row| < 9 || (ParseDayMonthYear(row[8]).Some? && |row| < 10)
    ensures r == Err(ValueError) <==> |row| >= 9 && ParseDayMonthYear(row[8]).None?
    ensures r.Ok? ==> |row| >= 10
  {
    if |row| < 9 then Err(IndexError)
    else
      match ParseDayMonthYear(row[8])
      case None => Err(ValueError)
      case Some(consulted) =>
        if |row| < 10 then Err(IndexError)
        else Ok(Licence(
          uid := row[0],
          reference := row[0],
          otherFields := map["applicant_name" := row[1]],
          address := row[2] + ", " + row[4],
          location := row[3],
          areaName := row[5],
          description := row[6] + " trees to be felled over " + row[7] + " hectares",
          consultedDate := IsoDate(consulted),
          lastChanged := row[9],
          appType := "Trees",
          url := RegisterUrl,
          lastScraped := IsoDate(today)))
  }

  /**
   * The fields of a normalised row: the first column is both the uid and the
   * reference, the applicant is the second, the address joins the third and
   * fifth, the description is built from the seventh and eighth, the
   * consulted date is the ninth rewritten YYYY-mm-dd, the last change is the
   * tenth, and the type, link and scrape date are fixed.
   */
  lemma NormaliseFields(row: seq<string>, today: Date)
    requires ValidDate(today) && Normalise(row, today).Ok?
    ensures var l := Normalise(row, today).value;
      && l.uid == row[0] && l.reference == row[0]
      && l.otherFields == map["applicant_name" := row[1]]
      && l.address == row[2] + ", " + row[4]
      && l.location == row[3] && l.areaName == row[5]
      && l.description == row[6] + " trees to be felled over " + row[7] + " hectares"
      && l.consultedDate == IsoDate(ParseDayMonthYear(row[8]).value)
      && l.lastChanged == row[9]
      && l.appType == "Trees" && l.url == RegisterUrl
      && l.lastScraped == IsoDate(today)
  {
  }

  /**
   * A collected row of the register's nine columns whose end-of-comments date
   * is written `dd/mm/YYYY` normalises to a record whose consulted date is
   * that date written `YYYY-mm-dd`, and whose last change is the stamp.
   */
  lemma NormaliseCollected(cells: seq<string>, consulted: Date, stamp: string, today: Date)
    requires |cells| == 9 && ValidDate(consulted) && ValidDate(today)
    requires cells[8] == DayMonthYear(consulted)
    ensures Normalise(cells + [stamp], today).Ok?
    ensures Normalise(cells + [stamp], today).value.consultedDate == IsoDate(consulted)
    ensures Normalise(cells + [stamp], today).value.lastChanged == stamp
    ensures Normalise(cells + [stamp], today).value.uid == cells[0]
  {
    DayMonthYearRoundTrip(consulted);
    assert (cells + [stamp])[8] == cells[8];
  }

  /** Distinct end-of-comments dates are written as distinct consulted dates. */
  lemma ConsultedDatesDistinct(a: seq<string>, b: seq<string>, today: Date)
    requires ValidDate(today)
    requires Normalise(a, today).Ok? && Normalise(b, today).Ok?
    requires ParseDayMonthYear(a[8]) != ParseDayMonthYear(b[8])
    ensures Normalise(a, today).value.consultedDate != Normalise(b, today).value.consultedDate
  {
    var da, db := ParseDayMonthYear(a[8]).value, ParseDayMonthYear(b[8]).value;
    if IsoDate(da) == IsoDate(db) {
      IsoDateInjective(da, db);
    }
  }

  /** `list(map(normalise, data))`: the records in order, or the first row's failure. */
  function NormaliseAll(data: seq<seq<string>>, today: Date): (r: Result<seq<Licence>, Failure>)
    requires ValidDate(today)
    ensures r.Ok? <==> forall i :: 0 <= i < |data| ==> Normalise(data[i], today).Ok?
    ensures r.Ok? ==>
      && |r.value| == |data|
      && forall i :: 0 <= i < |data| ==> r.value[i] == Normalise(data[i], today).value
  {
    if data == [] then Ok([])
    else
      match Normalise(data[0], today)
      case Err(e) => Err(e)
      case Ok(first) =>
        match NormaliseAll(data[1..], today)
        case Err(e) => Err(e)
        case Ok(rest) =>
          assert forall i :: 0 < i < |data| ==> data[1..][i - 1] == data[i];
          Ok([first] + rest)
  }

  /** A failed mapping fails with the failure of the first row that does not normalise. */
  lemma {:induction false} NormaliseAllFirstFailure(data: seq<seq<string>>, today: Date)
    requires ValidDate(today) && NormaliseAll(data, today).Err?
    ensures exists i :: && 0 <= i < |data|
                        && Normalise(data[i], today) == Err(NormaliseAll(data, today).error)
                        && forall j :: 0 <= j < i ==> Normalise(data[j], today).Ok?
  {
    if Normalise(data[0], today).Err? {
      assert Normalise(data[0], today) == Err(NormaliseAll(data, today).error);
    } else {
      NormaliseAllFirstFailure(data[1..], today);
      var i :| && 0 <= i < |data[1..]|
               && Normalise(data[1..][i], today) == Err(NormaliseAll(data[1..], today).error)
               && forall j :: 0 <= j < i ==> Normalise(data[1..][j], today).Ok?;
      assert forall j :: 0 < j < i + 1 ==> data[j] == data[1..][j - 1];
      assert data[i + 1] == data[1..][i];
    }
  }

  // ---------------------------------------------------------------------------
  // The whole scrape
  // ---------------------------------------------------------------------------

  /**
   * How `scrape_felling_licenses` ends: nothing done (response not ok), a
   * ValueError from the last-updated stamp, the first row's failure, or the
   * list of records it prints.
   */
  datatype Outcome = NotOk | StampError | RowError(failure: Failure) | Printed(records: seq<Licence>)

  method ScrapeFellingLicences(ok: bool, stampText: string, rows: seq<seq<string>>, today: Date)
    returns (outcome: Outcome)
    requires ValidDate(today)
    ensures !ok ==> outcome == NotOk
    ensures ok && ReformatStamp(stampText).None? ==> outcome == StampError
    ensures ok && ReformatStamp(stampText).Some? ==>
      outcome == match NormaliseAll(KeptRows(rows, ReformatStamp(stampText).value), today)
                 case Ok(records) => Printed(records)
                 case Err(e) => RowError(e)
  {
    if !ok {
      return NotOk;
    }
    var lastUpdated := ReformatStamp(stampText);
    if lastUpdated.None? {
      return StampError;
    }
    var data := CollectRows(rows, lastUpdated.value);
    var mapped := NormaliseAll(data, today);
    match mapped
    case Ok(records) => outcome := Printed(records);
    case Err(e) => outcome := RowError(e);
  }
}
