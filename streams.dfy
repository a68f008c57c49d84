/**
 * The XDF stream listing script: finding the first stream whose info field holds a value,
 * assembling one table row per stream that has info, and the right-aligned table layout.
 * Loading the file and formatting floats are not modelled: a stream carries its time figures
 * already formatted.
 */
module XdfStreams {
  import opened Text
  import opened Wrappers

  /**
   * A value of a stream's info dictionary: a string, a list or tuple of strings, or anything
   * else (a number, a nested dictionary) with its printed form.
   */
  datatype InfoValue = Str(s: string) | Items(values: seq<string>) | Other(repr: string)

  /**
   * A loaded stream: its "info" dictionary when it has one, the length of its time series, and
   * its duration and first and last time stamp as printed with two decimals.
   */
  datatype Stream = Stream(
    info: Option<map<string, InfoValue>>,
    sampleCount: nat,
    duration: string,
    tsMin: string,
    tsMax: string)

  /** The stream's info holds `desired` under `field`: as the value itself or as one of its items. */
  predicate HasInfo(stream: Stream, field: string, desired: string)
  {
    && stream.info.Some?
    && field in stream.info.value
    && var v := stream.info.value[field];
       v == Str(desired) || (v.Items? && desired in v.values)
  }

  /**
   * try_finding_stream_by_info: the first stream, in list order, whose info holds `desired`
   * under `field`; None when there is none. Streams without info or without the field are
   * passed over.
   */
  method TryFindingStreamByInfo(streams: seq<Stream>, field: string, desired: string) returns (found: Option<Stream>)
    ensures found.Some? ==>
      exists k :: 0 <= k < |streams| && streams[k] == found.value && HasInfo(streams[k], field, desired) &&
        forall j :: 0 <= j < k ==> !HasInfo(streams[j], field, desired)
    ensures found.None? ==> forall k :: 0 <= k < |streams| ==> !HasInfo(streams[k], field, desired)
  {
    for k := 0 to |streams|
      invariant forall j :: 0 <= j < k ==> !HasInfo(streams[j], field, desired)
    {
      var s := streams[k];
      if s.info.Some? && field in s.info.value {
        var v := s.info.value[field];
        if v == Str(desired) {
          return Some(s);
        } else if v.Items? {
          for m := 0 to |v.values|
            invariant forall n :: 0 <= n < m ==> v.values[n] != desired
          {
            if v.values[m] == desired {
              return Some(s);
            }
          }
        }
      }
    }
    return None;
  }

  /** The column names of the table. */
  const Header: seq<string> :=
    ["idx", "name", "type", "c_count", "c_fmt", "num_samples", "duration_s", "ts_min", "ts_max"]

  /**
   * get_info: the info value under `field` (an empty string when absent), indexed at 0 and
   * printed. None when indexing fails: an empty string or list, or a value that cannot be
   * indexed.
   */
  function GetInfo(info: map<string, InfoValue>, field: string): (r: Option<string>)
    ensures r.Some? <==>
      field in info && ((info[field].Str? && |info[field].s| > 0) || (info[field].Items? && |info[field].values| > 0))
    ensures r.Some? && info[field].Str? ==> r.value == info[field].s[..1]
    ensures r.Some? && info[field].Items? ==> r.value == info[field].values[0]
  {
    match (if field in info then info[field] else Str(""))
    case Str(s) => if |s| > 0 then Some([s[0]]) else None
    case Items(vs) => if |vs| > 0 then Some(vs[0]) else None
    case Other(_) => None
  }

  /** The row of the stream at index `idx`, or None when one of its info lookups fails. */
  function Row(idx: nat, info: map<string, InfoValue>, s: Stream): Option<seq<string>>
  {
    var name := GetInfo(info, "name");
    var kind := GetInfo(info, "type");
    var count := GetInfo(info, "channel_count");
    var format := GetInfo(info, "channel_format");
    if name.Some? && kind.Some? && count.Some? && format.Some? then
      Some([Dec(idx), name.value, kind.value, count.value, format.value, Dec(s.sampleCount),
            s.duration, s.tsMin, s.tsMax])
    else None
  }

  /**
   * The outcome of the listing loop: the rows built so far, the indices of the streams passed
   * over for want of info, and whether a lookup failed (which ends the script before the table
   * is printed).
   */
  datatype Listing = Listing(rows: seq<seq<string>>, skipped: seq<nat>, failed: bool)

  /** The listing after the first `n` streams. */
  function ListingOf(streams: seq<Stream>, n: nat): Listing
    requires n <= |streams|
  {
    if n == 0 then Listing([], [], false)
    else
      var prev := ListingOf(streams, n - 1);
      var s := streams[n - 1];
      if prev.failed then prev
      else if s.info.None? then prev.(skipped := prev.skipped + [n - 1])
      else
        match Row(n - 1, s.info.value, s)
        case None => prev.(failed := true)
        case Some(row) => prev.(rows := prev.rows + [row])
  }

  /** The streams among the first `n` that have info. */
  function WithInfo(streams: seq<Stream>, n: nat): (ks: seq<nat>)
    requires n <= |streams|
    ensures forall j :: 0 <= j < |ks| ==> ks[j] < n
  {
    if n == 0 then []
    else WithInfo(streams, n - 1) + (if streams[n - 1].info.Some? then [n - 1] else [])
  }

  /**
   * When no lookup fails, the listing has one row per stream with info, in stream order: the
   * stream's index, its name, type, channel count and channel format as get_info gives them,
   * its sample count, and its duration and time-stamp range.
   */
  lemma {:induction false} ListingRows(streams: seq<Stream>, n: nat)
    requires n <= |streams|
    ensures !ListingOf(streams, n).failed ==>
      && |ListingOf(streams, n).rows| == |WithInfo(streams, n)|
      && forall j :: 0 <= j < |ListingOf(streams, n).rows| ==>
           var row, k := ListingOf(streams, n).rows[j], WithInfo(streams, n)[j];
           && streams[k].info.Some? && |row| == |Header|
           && row[0] == Dec(k)
           && GetInfo(streams[k].info.value, "name") == Some(row[1])
           && GetInfo(streams[k].info.value, "type") == Some(row[2])
           && GetInfo(streams[k].info.value, "channel_count") == Some(row[3])
           && GetInfo(streams[k].info.value, "channel_format") == Some(row[4])
           && row[5] == Dec(streams[k].sampleCount)
           && row[6] == streams[k].duration && row[7] == streams[k].tsMin && row[8] == streams[k].tsMax
  {
    if n > 0 {
      ListingRows(streams, n - 1);
      var prev := ListingOf(streams, n - 1);
      var l := ListingOf(streams, n);
      if !l.failed && streams[n - 1].info.Some? {
        var row := Row(n - 1, streams[n - 1].info.value, streams[n - 1]).value;
        assert l.rows == prev.rows + [row];
        assert WithInfo(streams, n) == WithInfo(streams, n - 1) + [n - 1];
      }
    }
  }

  /** When no lookup fails, the listing passes over exactly the streams without info. */
  lemma {:induction false} ListingSkipped(streams: seq<Stream>, n: nat)
    requires n <= |streams|
    ensures var l := ListingOf(streams, n);
      !l.failed ==> forall k :: 0 <= k < n ==> (k in l.skipped <==> streams[k].info.None?)
  {
    if n > 0 {
      ListingSkipped(streams, n - 1);
      var prev := ListingOf(streams, n - 1);
      var l := ListingOf(streams, n);
      if !l.failed {
        SkippedBelow(streams, n - 1);
        assert n - 1 !in prev.skipped;
      }
    }
  }

  /** Every index passed over is below the number of streams walked. */
  lemma {:induction false} SkippedBelow(streams: seq<Stream>, n: nat)
    requires n <= |streams|
    ensures forall j :: 0 <= j < |ListingOf(streams, n).skipped| ==> ListingOf(streams, n).skipped[j] < n
  {
    if n > 0 {
      SkippedBelow(streams, n - 1);
      var prev := ListingOf(streams, n - 1);
      if !prev.failed && streams[n - 1].info.None? {
        assert ListingOf(streams, n).skipped == prev.skipped + [n - 1];
      } else {
        assert ListingOf(streams, n).skipped == prev.skipped;
      }
    }
  }

  /** Every row built has a cell per column. */
  lemma {:induction false} RowsFit(streams: seq<Stream>, n: nat)
    requires n <= |streams|
    ensures forall j :: 0 <= j < |ListingOf(streams, n).rows| ==> |ListingOf(streams, n).rows[j]| == |Header|
  {
    if n > 0 {
      RowsFit(streams, n - 1);
      var prev := ListingOf(streams, n - 1);
      var s := streams[n - 1];
      if !prev.failed && s.info.Some? && Row(n - 1, s.info.value, s).Some? {
        assert ListingOf(streams, n).rows == prev.rows + [Row(n - 1, s.info.value, s).value];
      } else {
        assert ListingOf(streams, n).rows == prev.rows;
      }
    }
  }

  /**
   * print_streams_in_xdf_file's loop: walks the streams with their indices, appends a row for
   * each stream with info and reports the others; a failing lookup ends the walk.
   */
  method ListStreams(streams: seq<Stream>) returns (listing: Listing)
    ensures listing == ListingOf(streams, |streams|)
  {
    var rows: seq<seq<string>> := [];
    var skipped: seq<nat> := [];
    for idx := 0 to |streams|
      invariant ListingOf(streams, idx) == Listing(rows, skipped, false)
    {
      var s := streams[idx];
      if s.info.Some? {
        var row := Row(idx, s.info.value, s);
        if row.None? {
          listing := Listing(rows, skipped, true);
          FailedStays(streams, idx + 1, |streams|);
          return;
        }
        rows := rows + [row.value];
      } else {
        skipped := skipped + [idx];
      }
    }
    listing := Listing(rows, skipped, false);
  }

  /** Once a lookup has failed, the listing no longer changes. */
  lemma {:induction false} FailedStays(streams: seq<Stream>, n: nat, m: nat)
    requires n <= m <= |streams| && ListingOf(streams, n).failed
    ensures ListingOf(streams, m) == ListingOf(streams, n)
    decreases m - n
  {
    if n < m {
      FailedStays(streams, n, m - 1);
    }
  }

  /** The table print_table receives: the header, then the rows. */
  function Table(listing: Listing): seq<seq<string>>
  {
    [Header] + listing.rows
  }

  /** The longest cell of column `i`. */
  function MaxCell(table: seq<seq<string>>, i: nat): nat
    requires forall r :: 0 <= r < |table| ==> i < |table[r]|
  {
    if table == [] then 0
    else
      var rest := MaxCell(table[1..], i);
      if |table[0][i]| > rest then |table[0][i]| else rest
  }

  /** Every row has at least as many cells as the first. */
  predicate Rectangular(table: seq<seq<string>>)
  {
    |table| > 0 && forall r :: 0 <= r < |table| ==> |table[r]| >= |table[0]|
  }

  /** print_table's column widths: the longest cell of each column, plus 3. */
  function ColumnWidths(table: seq<seq<string>>): (ws: seq<nat>)
    requires Rectangular(table)
    ensures |ws| == |table[0]|
  {
    seq(|table[0]|, i requires 0 <= i < |table[0]| => MaxCell(table, i) + 3)
  }

  /** MaxCell is the length of some cell of the column and no cell is longer. */
  lemma {:induction false} MaxCellSpec(table: seq<seq<string>>, i: nat)
    requires |table| > 0 && forall r :: 0 <= r < |table| ==> i < |table[r]|
    ensures forall r :: 0 <= r < |table| ==> |table[r][i]| <= MaxCell(table, i)
    ensures exists r :: 0 <= r < |table| && |table[r][i]| == MaxCell(table, i)
  {
    if |table| > 1 {
      var tail := table[1..];
      MaxCellSpec(tail, i);
      var r' :| 0 <= r' < |tail| && |tail[r'][i]| == MaxCell(tail, i);
      assert table[r' + 1] == tail[r'];
      forall r | 1 <= r < |table|
        ensures |table[r][i]| <= MaxCell(table, i)
      {
        assert table[r] == tail[r - 1];
      }
    }
  }

  /** Each width leaves three spaces before the column's longest cell, and that cell exists. */
  lemma ColumnWidthsTight(table: seq<seq<string>>, i: nat)
    requires Rectangular(table) && i < |table[0]|
    ensures forall r :: 0 <= r < |table| ==> |table[r][i]| + 3 <= ColumnWidths(table)[i]
    ensures exists r :: 0 <= r < |table| && |table[r][i]| + 3 == ColumnWidths(table)[i]
  {
    MaxCellSpec(table, i);
  }

  /** "{:>w}": the text right-aligned in `w` columns; a longer text is kept whole. */
  function PadLeft(s: string, w: nat): (p: string)
    ensures |s| <= w ==> |p| == w && p[w - |s|..] == s && forall k :: 0 <= k < w - |s| ==> p[k] == ' '
    ensures |s| > w ==> p == s
  {
    if |s| < w then seq(w - |s|, _ => ' ') + s else s
  }

  /** A row printed with the widths: its first |ws| cells, each right-aligned. */
  function FormatRow(row: seq<string>, ws: seq<nat>): string
    requires |row| >= |ws|
  {
    if ws == [] then [] else PadLeft(row[0], ws[0]) + FormatRow(row[1..], ws[1..])
  }

  function Sum(ws: seq<nat>): nat
  {
    if ws == [] then 0 else ws[0] + Sum(ws[1..])
  }

  /** A row whose cells fit their widths prints exactly as wide as the widths add up to. */
  lemma {:induction false} FormatRowWidth(row: seq<string>, ws: seq<nat>)
    requires |row| >= |ws| && forall i :: 0 <= i < |ws| ==> |row[i]| <= ws[i]
    ensures |FormatRow(row, ws)| == Sum(ws)
  {
    if ws != [] {
      FormatRowWidth(row[1..], ws[1..]);
    }
  }

  /** print_table's output: every row of the table, formatted with the column widths. */
  function TableLines(table: seq<seq<string>>): seq<string>
    requires Rectangular(table)
  {
    var ws := ColumnWidths(table);
    seq(|table|, r requires 0 <= r < |table| => FormatRow(table[r], ws))
  }

  /** All printed lines have the same length, so the columns line up. */
  lemma TableLinesAligned(table: seq<seq<string>>)
    requires Rectangular(table)
    ensures forall r :: 0 <= r < |table| ==> |TableLines(table)[r]| == Sum(ColumnWidths(table))
  {
    var ws := ColumnWidths(table);
    forall r | 0 <= r < |table|
      ensures |TableLines(table)[r]| == Sum(ws)
    {
      forall i | 0 <= i < |ws|
        ensures |table[r][i]| <= ws[i]
      {
        MaxCellSpec(table, i);
      }
      FormatRowWidth(table[r], ws);
    }
  }

  /** A header followed by rows of the header's width is rectangular. */
  lemma HeaderAndRows(header: seq<string>, rows: seq<seq<string>>)
    requires forall j :: 0 <= j < |rows| ==> |rows[j]| == |header|
    ensures Rectangular([header] + rows)
  {
    var t := [header] + rows;
    assert forall r :: 1 <= r < |t| ==> t[r] == rows[r - 1];
  }

  /** The table handed to print_table is rectangular. */
  lemma ListingTableRectangular(streams: seq<Stream>)
    ensures Rectangular(Table(ListingOf(streams, |streams|)))
  {
    RowsFit(streams, |streams|);
    HeaderAndRows(Header, ListingOf(streams, |streams|).rows);
  }
}
