/** The sparkline of upcoming gigs (templatetags/charts.py): one value per
    day from today to the last day the query returns, and the chart
    options that become the query string of a chart URL. */
module Charts {
  import opened Base

  const GoogleChartsUrl: string := "http://chart.apis.google.com/chart"

  /** One row of the per-day query: a day number and how many published
      gigs fall on it. */
  datatype DayCount = DayCount(day: int, count: nat)

  /** What the query promises: only days from today on, each day once
      (the rows are grouped by date). */
  predicate UpcomingRows(today: int, rows: seq<DayCount>)
  {
    (forall k :: 0 <= k < |rows| ==> today <= rows[k].day)
    && (forall j, k :: 0 <= j < k < |rows| ==> rows[j].day != rows[k].day)
  }

  // ---------------------------------------------------------------------
  // the day-by-day values

  /** The `dates` dictionary: each row's day mapped to its count, a later
      row for the same day overwriting an earlier one. */
  function CountsByDay(rows: seq<DayCount>): (counts: map<int, nat>)
    ensures forall k :: 0 <= k < |rows| ==> rows[k].day in counts
    ensures forall d :: d in counts ==> exists k :: 0 <= k < |rows| && rows[k].day == d
  {
    if rows == [] then map[]
    else
      var counts := CountsByDay(rows[..|rows| - 1]);
      assert forall k :: 0 <= k < |rows| - 1 ==> rows[k] == rows[..|rows| - 1][k];
      counts[rows[|rows| - 1].day := rows[|rows| - 1].count]
  }

  /** With each day once, the dictionary has one entry per row, holding
      that row's count. */
  lemma {:induction false} CountsByDayRows(rows: seq<DayCount>)
    requires forall j, k :: 0 <= j < k < |rows| ==> rows[j].day != rows[k].day
    ensures |CountsByDay(rows)| == |rows|
    ensures forall k :: 0 <= k < |rows| ==> CountsByDay(rows)[rows[k].day] == rows[k].count
  {
    if rows != [] {
      var init := rows[..|rows| - 1];
      var last := rows[|rows| - 1];
      CountsByDayRows(init);
      assert forall k :: 0 <= k < |init| ==> init[k] == rows[k];
      assert last.day !in CountsByDay(init);
    }
  }

  /** A day's count, 0 for a day without gigs. */
  function CountOn(counts: map<int, nat>, day: int): nat
  {
    if day in counts then counts[day] else 0
  }

  /** `chart_values` after `n` turns of the second loop: the value for
      each of the `n` days from `today` is that day's count or 0. */
  function ChartValues(counts: map<int, nat>, today: int, n: nat): (values: seq<nat>)
    ensures |values| == n
    ensures forall i :: 0 <= i < n ==> values[i] == CountOn(counts, today + i)
  {
    if n == 0 then [] else ChartValues(counts, today, n - 1) + [CountOn(counts, today + n - 1)]
  }

  /** The first loop of `upcoming_gigs_sparkline_url`: the `dates`
      dictionary filled row by row. */
  method FillDates(rows: seq<DayCount>) returns (dates: map<int, nat>)
    ensures dates == CountsByDay(rows)
  {
    dates := map[];
    for k := 0 to |rows|
      invariant dates == CountsByDay(rows[..k])
    {
      assert rows[..k + 1][..k] == rows[..k];
      dates := dates[rows[k].day := rows[k].count];
    }
    assert rows[..|rows|] == rows;
  }

  /** The second loop: one value per day for the `n` days from `today`,
      the day's count when `dates` has it, else 0. */
  method FillValues(dates: map<int, nat>, today: int, n: nat) returns (values: seq<nat>)
    ensures values == ChartValues(dates, today, n)
  {
    values := [];
    for addition := 0 to n
      invariant values == ChartValues(dates, today, addition)
    {
      var nextDate := today + addition;
      if nextDate in dates {
        values := values + [dates[nextDate]];
      } else {
        values := values + [0];
      }
    }
  }

  /** The values of `upcoming_gigs_sparkline_url`: fill `dates` from the
      rows, then chart the days from today to the day of the row at index
      `len(dates) - 1`, inclusive. None when there are no rows, where that
      index is -1 and indexing the query raises. */
  method SparklineValues(today: int, rows: seq<DayCount>) returns (r: Option<seq<nat>>)
    requires UpcomingRows(today, rows)
    ensures r.None? <==> rows == []
    ensures r.Some? ==> r.value == ChartValues(CountsByDay(rows), today, rows[|rows| - 1].day - today + 1)
  {
    var dates := FillDates(rows);
    CountsByDayRows(rows);
    if |dates| == 0 {
      return None;
    }
    var lastDate := rows[|dates| - 1].day;
    var values := FillValues(dates, today, lastDate - today + 1);
    r := Some(values);
  }

  /** The chart starts today and has at least one value; every row up to
      the last row's day is charted with its own count, at its offset from
      today. */
  lemma SparklineCovers(today: int, rows: seq<DayCount>)
    requires UpcomingRows(today, rows) && rows != []
    ensures var last := rows[|rows| - 1].day;
      var values := ChartValues(CountsByDay(rows), today, last - today + 1);
      1 <= |values| && values[|values| - 1] == rows[|rows| - 1].count
      && forall k :: 0 <= k < |rows| && rows[k].day <= last ==> values[rows[k].day - today] == rows[k].count
  {
    CountsByDayRows(rows);
  }

  /** A day of the chart that no row names is charted as 0. */
  lemma SparklineGaps(today: int, rows: seq<DayCount>, i: int)
    requires UpcomingRows(today, rows) && rows != []
    requires 0 <= i <= rows[|rows| - 1].day - today
    requires forall k :: 0 <= k < |rows| ==> rows[k].day != today + i
    ensures ChartValues(CountsByDay(rows), today, rows[|rows| - 1].day - today + 1)[i] == 0
  {
  }

  // ---------------------------------------------------------------------
  // the chart options

  /** `max(chart_values)`. */
  function Max(values: seq<nat>): (m: nat)
    requires values != []
    ensures m in values
    ensures forall i :: 0 <= i < |values| ==> values[i] <= m
  {
    if |values| == 1 then values[0]
    else
      var m := Max(values[1..]);
      assert forall i :: 1 <= i < |values| ==> values[i] == values[1..][i - 1];
      if values[0] > m then values[0] else m
  }

  /** `map(str, values)`. */
  function NatStrings(values: seq<nat>): seq<string>
  {
    seq(|values|, i requires 0 <= i < |values| => NatToString(values[i]))
  }

  /** The default `chart_options`: a 940x21 line sparkline whose data is
      the values in text encoding and whose scale runs from 0 to their
      maximum. */
  function DefaultOptions(values: seq<nat>): map<string, string>
    requires values != []
  {
    map["cht" := "ls", "chs" := "940x21",
        "chd" := "t:" + Join(NatStrings(values), ','),
        "chds" := "0," + NatToString(Max(values))]
  }

  /** `chart_options.update(GOOGLE_CHARTS_OPTIONS)`: every key the settings
      give takes the settings' value, every other default stays, and no
      other key appears. */
  function ChartOptions(values: seq<nat>, settings: map<string, string>): (options: map<string, string>)
    requires values != []
    ensures options.Keys == DefaultOptions(values).Keys + settings.Keys
    ensures forall k :: k in settings ==> options[k] == settings[k]
    ensures forall k :: k in DefaultOptions(values) && k !in settings ==> options[k] == DefaultOptions(values)[k]
  {
    DefaultOptions(values) + settings
  }

  /** The default data reads back as the values: after "t:", the text
      splits at commas into one integer per day. */
  lemma {:induction false} ChdDecodes(values: seq<nat>)
    requires values != []
    ensures var chd := DefaultOptions(values)["chd"];
      var pieces := Split(chd[2..], ',');
      chd[..2] == "t:" && |pieces| == |values|
      && forall i :: 0 <= i < |values| ==> ParseInt(pieces[i]) == Some(values[i] as int)
  {
    var strings := NatStrings(values);
    var chd := "t:" + Join(strings, ',');
    assert forall i :: 0 <= i < |strings| ==> ',' !in strings[i] by {
      forall i | 0 <= i < |strings|
        ensures ',' !in strings[i]
      {
        assert AllDigits(strings[i]);
      }
    }
    SplitJoin(strings, ',');
    assert chd[2..] == Join(strings, ',');
    forall i | 0 <= i < |values|
      ensures ParseInt(strings[i]) == Some(values[i] as int)
    {
      ParseIntOfString(values[i]);
    }
  }

  /** The default scale reads back as 0 and the largest value, so every
      value lies within the declared range. */
  lemma ChdsBounds(values: seq<nat>)
    requires values != []
    ensures var pieces := Split(DefaultOptions(values)["chds"], ',');
      |pieces| == 2 && pieces[0] == "0" && ParseInt(pieces[1]) == Some(Max(values) as int)
      && forall i :: 0 <= i < |values| ==> 0 <= values[i] <= Max(values)
  {
    var m := Max(values);
    var top := NatToString(m);
    assert DefaultOptions(values)["chds"] == "0," + top;
    ScaleSplits(top);
    ParseIntOfString(m);
  }

  /** "0," followed by a run of digits splits at the comma. */
  lemma ScaleSplits(top: string)
    requires AllDigits(top)
    ensures Split("0," + top, ',') == ["0", top]
  {
    assert forall i :: 0 <= i < |top| ==> top[i] != ',';
    assert "0," + top == "0" + [','] + top;
    SplitFirst("0", top, ',');
    assert ',' !in top;
  }

  // ---------------------------------------------------------------------
  // the URL

  /** `"=".join([k, v])` for each item. */
  function Pairs(options: map<string, string>, keys: seq<string>): seq<string>
    requires forall i :: 0 <= i < |keys| ==> keys[i] in options
  {
    seq(|keys|, i requires 0 <= i < |keys| => keys[i] + "=" + options[keys[i]])
  }

  /** `"%s?%s" % (GOOGLE_CHARTS_URL, "&".join(pairs))`. */
  function SparklineUrl(options: map<string, string>, keys: seq<string>): (url: string)
    requires ItemOrder(options, keys)
    ensures |url| > |GoogleChartsUrl| && url[..|GoogleChartsUrl| + 1] == GoogleChartsUrl + "?"
  {
    var query := Join(Pairs(options, keys), '&');
    assert (GoogleChartsUrl + "?" + query)[..|GoogleChartsUrl| + 1] == GoogleChartsUrl + "?";
    GoogleChartsUrl + "?" + query
  }

  /** When no key or value holds '&', the query string splits back into
      one "key=value" piece per option, in item order. */
  lemma UrlPairs(options: map<string, string>, keys: seq<string>)
    requires ItemOrder(options, keys)
    requires forall k :: k in options ==> '&' !in k && '&' !in options[k]
    ensures var url := SparklineUrl(options, keys);
      var pieces := Split(url[|GoogleChartsUrl| + 1..], '&');
      |pieces| == |options| && pieces == Pairs(options, keys)
  {
    var pairs := Pairs(options, keys);
    forall i | 0 <= i < |pairs|
      ensures '&' !in pairs[i]
    {
      assert pairs[i] == keys[i] + "=" + options[keys[i]];
    }
    SplitJoin(pairs, '&');
    var url := SparklineUrl(options, keys);
    assert url[|GoogleChartsUrl| + 1..] == Join(pairs, '&');
    KeysCount(options, keys);
  }
}
