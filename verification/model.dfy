/**
 * The records shown in the two tables of the window and the lists behind
 * them: `Song` (a file and its format), `Result` (one finished test), and
 * the append/remove/get/reset operations of `SongModel` and `ResultModel`.
 */
module Model {
  import opened Common
  import opened Decimal

  const STRING_TEST_SAMPLINGRATE: string := "Sampling Rate"
  const STRING_TEST_BITDEPTH: string := "Bit Depth"
  const STRING_TEST_PASS: string := "Pass"
  const STRING_TEST_FAIL: string := "Fail"

  /** Both table models have three columns. */
  const COLUMN_COUNT: int := 3

  // ---------------------------------------------------------------------------
  // Path segments

  /** The path contains at least one character other than '/'. */
  predicate HasSegment(p: string)
  {
    exists i :: 0 <= i < |p| && p[i] != '/'
  }

  predicate AllSlashes(p: string)
  {
    forall i :: 0 <= i < |p| ==> p[i] == '/'
  }

  /** Length of the leading run of characters other than '/'. */
  function SegmentLength(s: string): (n: nat)
    ensures n <= |s|
    ensures forall i :: 0 <= i < n ==> s[i] != '/'
    ensures n < |s| ==> s[n] == '/'
  {
    if s == [] || s[0] == '/' then 0 else 1 + SegmentLength(s[1..])
  }

  /** `split('/', QString::SkipEmptyParts)`: the non-empty '/'-separated segments, in order. */
  function Split(s: string): (parts: seq<string>)
    ensures forall k :: 0 <= k < |parts| ==> |parts[k]| > 0 && '/' !in parts[k]
    decreases |s|
  {
    if s == [] then []
    else if s[0] == '/' then Split(s[1..])
    else
      var n := SegmentLength(s);
      assert '/' !in s[..n];
      [s[..n]] + Split(s[n..])
  }

  /** `s` without its trailing '/' characters. */
  function StripTrailingSlashes(s: string): (t: string)
    ensures |t| <= |s| && t == s[..|t|]
    ensures |t| > 0 ==> t[|t| - 1] != '/'
    ensures AllSlashes(s[|t|..])
  {
    if |s| > 0 && s[|s| - 1] == '/' then StripTrailingSlashes(s[..|s| - 1]) else s
  }

  /** The longest suffix of `s` without '/'. */
  function FinalRun(s: string): (t: string)
    ensures |t| <= |s| && t == s[|s| - |t|..]
    ensures '/' !in t
    ensures |t| < |s| ==> s[|s| - |t| - 1] == '/'
  {
    if |s| > 0 && s[|s| - 1] != '/' then FinalRun(s[..|s| - 1]) + [s[|s| - 1]] else []
  }

  /**
   * The last non-empty segment of a path, read from its end: skip the
   * trailing slashes, then take the characters back to the previous '/'.
   */
  function LastSegment(p: string): string
  {
    FinalRun(StripTrailingSlashes(p))
  }

  lemma {:induction false} SplitEmptyIffAllSlashes(s: string)
    ensures Split(s) == [] <==> AllSlashes(s)
    decreases |s|
  {
    if s == [] {
    } else if s[0] == '/' {
      SplitEmptyIffAllSlashes(s[1..]);
      if AllSlashes(s[1..]) {
        assert AllSlashes(s) by {
          forall i | 0 <= i < |s| ensures s[i] == '/' {
            if i > 0 { assert s[i] == s[1..][i - 1]; }
          }
        }
      } else {
        var i :| 0 <= i < |s[1..]| && s[1..][i] != '/';
        assert s[i + 1] != '/';
      }
    } else {
      assert s[0] != '/';
    }
  }

  lemma HasSegmentIffNotAllSlashes(s: string)
    ensures HasSegment(s) <==> !AllSlashes(s)
  {
  }

  /** Removing trailing slashes only touches the part after the last non-slash character. */
  lemma {:induction false} StripAppend(x: string, c: string)
    requires !AllSlashes(c)
    ensures StripTrailingSlashes(x + c) == x + StripTrailingSlashes(c)
    decreases |c|
  {
    assert |c| > 0;
    var xc := x + c;
    assert xc[|xc| - 1] == c[|c| - 1];
    if c[|c| - 1] == '/' {
      var c' := c[..|c| - 1];
      assert !AllSlashes(c') by {
        var i :| 0 <= i < |c| && c[i] != '/';
        assert i < |c| - 1;
        assert c'[i] != '/';
      }
      assert xc[..|xc| - 1] == x + c';
      StripAppend(x, c');
    } else {
    }
  }

  lemma {:induction false} StripAllSlashesSuffix(x: string, c: string)
    requires AllSlashes(c)
    ensures StripTrailingSlashes(x + c) == StripTrailingSlashes(x)
    decreases |c|
  {
    if c == [] {
      assert x + c == x;
    } else {
      var xc := x + c;
      assert xc[|xc| - 1] == '/';
      assert xc[..|xc| - 1] == x + c[..|c| - 1];
      StripAllSlashesSuffix(x, c[..|c| - 1]);
    }
  }

  /** One step of `FinalRun` at a non-'/' last character. */
  lemma FinalRunExtends(s: string)
    requires |s| > 0 && s[|s| - 1] != '/'
    ensures FinalRun(s) == FinalRun(s[..|s| - 1]) + [s[|s| - 1]]
  {
  }

  /** `FinalRun` of a string ending in '/' is empty. */
  lemma FinalRunAtSlash(s: string)
    requires |s| > 0 && s[|s| - 1] == '/'
    ensures FinalRun(s) == []
  {
  }

  /** Anything before a '/' does not affect the final run after it. */
  lemma {:induction false} FinalRunAfterSlash(x: string, c: string)
    ensures FinalRun(x + ['/'] + c) == FinalRun(c)
    decreases |c|
  {
    var y := x + ['/'] + c;
    assert y[|y| - 1] == if c == [] then '/' else c[|c| - 1];
    if c == [] || c[|c| - 1] == '/' {
      FinalRunAtSlash(y);
    } else {
      var c' := c[..|c| - 1];
      assert y[..|y| - 1] == x + ['/'] + c';
      FinalRunExtends(y);
      FinalRunExtends(c);
      FinalRunAfterSlash(x, c');
    }
  }

  lemma {:induction false} FinalRunOfSegment(s: string)
    requires '/' !in s
    ensures FinalRun(s) == s
    decreases |s|
  {
    if s != [] {
      assert s[|s| - 1] != '/';
      assert '/' !in s[..|s| - 1];
      FinalRunOfSegment(s[..|s| - 1]);
      assert s == s[..|s| - 1] + [s[|s| - 1]];
    }
  }

  /** A path starting with '/' has the last segment of the rest of it. */
  lemma LastSegmentAfterSlash(rest: string)
    requires !AllSlashes(rest)
    ensures LastSegment(['/'] + rest) == LastSegment(rest)
  {
    StripAppend(['/'], rest);
    assert ['/'] + StripTrailingSlashes(rest) == [] + ['/'] + StripTrailingSlashes(rest);
    FinalRunAfterSlash([], StripTrailingSlashes(rest));
  }

  /** A segment followed only by slashes is the last segment. */
  lemma LastSegmentBeforeSlashes(head: string, rest: string)
    requires |head| > 0 && '/' !in head && AllSlashes(rest)
    ensures LastSegment(head + rest) == head
  {
    StripAllSlashesSuffix(head, rest);
    assert StripTrailingSlashes(head) == head by {
      assert head[|head| - 1] != '/';
    }
    FinalRunOfSegment(head);
  }

  /** A segment followed by a '/' and more segments does not affect the last one. */
  lemma LastSegmentAfterHead(head: string, rest: string)
    requires |rest| > 0 && rest[0] == '/' && !AllSlashes(rest)
    ensures LastSegment(head + rest) == LastSegment(rest)
  {
    StripAppend(head, rest);
    var t := StripTrailingSlashes(rest);
    assert |t| > 0;
    assert t[0] == '/';
    assert t == ['/'] + t[1..];
    assert head + t == head + ['/'] + t[1..];
    FinalRunAfterSlash(head, t[1..]);
    FinalRunAfterSlash([], t[1..]);
    assert [] + ['/'] + t[1..] == t;
  }

  lemma SplitOfSlash(p: string)
    requires |p| > 0 && p[0] == '/'
    ensures Split(p) == Split(p[1..])
  {
  }

  lemma SplitOfSegment(p: string)
    requires |p| > 0 && p[0] != '/'
    ensures Split(p) == [p[..SegmentLength(p)]] + Split(p[SegmentLength(p)..])
  {
  }

  lemma LastSegmentOfSlash(p: string)
    requires |p| > 0 && p[0] == '/' && !AllSlashes(p[1..])
    ensures LastSegment(p) == LastSegment(p[1..])
  {
    assert p == ['/'] + p[1..];
    LastSegmentAfterSlash(p[1..]);
  }

  lemma LastSegmentOfSegment(p: string)
    requires |p| > 0 && p[0] != '/'
    ensures AllSlashes(p[SegmentLength(p)..]) ==> LastSegment(p) == p[..SegmentLength(p)]
    ensures !AllSlashes(p[SegmentLength(p)..]) ==> LastSegment(p) == LastSegment(p[SegmentLength(p)..])
  {
    var n := SegmentLength(p);
    assert p == p[..n] + p[n..];
    assert '/' !in p[..n];
    if AllSlashes(p[n..]) {
      LastSegmentBeforeSlashes(p[..n], p[n..]);
    } else {
      LastSegmentAfterHead(p[..n], p[n..]);
    }
  }

  /**
   * The last element of `split('/', SkipEmptyParts)` is the segment read
   * back from the end of the path.
   */
  lemma {:induction false} SplitLastIsLastSegment(p: string)
    requires Split(p) != []
    ensures Split(p)[|Split(p)| - 1] == LastSegment(p)
    decreases |p|
  {
    if p[0] == '/' {
      SplitOfSlash(p);
      SplitEmptyIffAllSlashes(p[1..]);
      SplitLastIsLastSegment(p[1..]);
      LastSegmentOfSlash(p);
    } else {
      var n := SegmentLength(p);
      SplitOfSegment(p);
      SplitEmptyIffAllSlashes(p[n..]);
      LastSegmentOfSegment(p);
      if Split(p[n..]) != [] {
        SplitLastIsLastSegment(p[n..]);
      }
    }
  }

  // ---------------------------------------------------------------------------
  // Song

  /** One audio file of the file list. */
  datatype Song = Song(filepath: string, filename: string, samplingrate: uint32, bitdepth: uint8)

  /**
   * `Song()`: the empty strings of a default-constructed song. The numeric
   * fields are left uninitialised by the constructor; here they are 0.
   */
  const DefaultSong: Song := Song("", "", 0, 0)

  /** `Song::getData(idx)`: the text of column `idx`. */
  function SongGetData(song: Song, idx: int): (r: string)
    ensures idx == 0 ==> r == song.filename
    ensures idx == 1 ==> AllDigits(r) && r != [] && DigitsValue(r) == song.samplingrate
    ensures idx == 2 ==> AllDigits(r) && r != [] && DigitsValue(r) == song.bitdepth
    ensures idx in {1, 2} && |r| > 1 ==> r[0] != '0'
    ensures idx !in {0, 1, 2} ==> r == []
  {
    NumberRoundTrip(song.samplingrate);
    NumberRoundTrip(song.bitdepth);
    match idx
    case 0 => song.filename
    case 1 => NumberText(song.samplingrate)
    case 2 => NumberText(song.bitdepth)
    case _ => ""
  }

  /**
   * `Song::setData(idx, str)`. Column 0 sets the path and derives the file
   * name from its last non-empty segment; a path with no such segment hits a
   * debug trap, so it must have one. Columns 1 and 2 store `str.toInt()`
   * converted to `uint32_t` and `uint8_t`.
   */
  function SongSetData(song: Song, idx: int, str: string): (r: Song)
    requires idx == 0 ==> HasSegment(str)
    ensures idx == 0 ==> r == song.(filepath := str, filename := LastSegment(str))
    ensures idx == 0 ==> |r.filename| > 0 && '/' !in r.filename
    ensures idx == 1 ==> r == song.(samplingrate := ToUint32(ToInt(str)))
    ensures idx == 2 ==> r == song.(bitdepth := ToUint8(ToInt(str)))
    ensures idx !in {0, 1, 2} ==> r == song
  {
    match idx
    case 0 =>
      var parts := Split(str);
      HasSegmentIffNotAllSlashes(str);
      SplitEmptyIffAllSlashes(str);
      SplitLastIsLastSegment(str);
      song.(filepath := str, filename := parts[|parts| - 1])
    case 1 => song.(samplingrate := ToUint32(ToInt(str)))
    case 2 => song.(bitdepth := ToUint8(ToInt(str)))
    case _ => song
  }

  /** `Song(path, rate, depth)`. */
  function NewSong(path: string, rate: uint32, depth: uint8): (r: Song)
    requires HasSegment(path)
    ensures r.filepath == path && r.filename == LastSegment(path)
    ensures r.samplingrate == rate && r.bitdepth == depth
  {
    SongSetData(DefaultSong, 0, path).(samplingrate := rate, bitdepth := depth)
  }

  /**
   * Writing back what `getData` shows leaves a song unchanged for the
   * numeric columns (the rate must fit in `int`, which `toInt` returns) and
   * for columns that do not exist.
   */
  lemma SongRoundTrip(song: Song, idx: int)
    requires idx != 0
    requires idx == 1 ==> song.samplingrate <= INT32_MAX
    ensures SongSetData(song, idx, SongGetData(song, idx)) == song
  {
    if idx == 1 {
      ToIntOfNumber(song.samplingrate);
    } else if idx == 2 {
      ToIntOfNumber(song.bitdepth);
    }
  }

  /** A rate too large for `int` does not survive the round trip: it becomes 0. */
  lemma SongRateRoundTripOverflow(song: Song)
    requires song.samplingrate > INT32_MAX
    ensures SongSetData(song, 1, SongGetData(song, 1)).samplingrate == 0
  {
    ToIntOfLargeNumber(song.samplingrate);
  }

  /** Writing column 0 back keeps the file name but replaces the path by it. */
  lemma SongNameRoundTrip(song: Song)
    requires HasSegment(song.filename) && '/' !in song.filename
    ensures SongSetData(song, 0, SongGetData(song, 0)) == song.(filepath := song.filename)
  {
    var f := song.filename;
    assert StripTrailingSlashes(f) == f by {
      assert f[|f| - 1] != '/';
    }
    FinalRunOfSegment(f);
  }

  // ---------------------------------------------------------------------------
  // Result

  datatype TestType = TestSamplingRate | TestBitDepth

  /** One finished listening test: the file, the test type and whether the answer was right. */
  datatype Result = Result(filename: string, testType: TestType, correct: bool)

  /** `Result::setData(idx, str)`: unrecognised text leaves the field unchanged. */
  function ResultSetData(res: Result, idx: int, str: string): (r: Result)
    ensures idx == 0 ==> r == res.(filename := str)
    ensures idx == 1 ==> r.filename == res.filename && r.correct == res.correct
    ensures idx == 1 && str == STRING_TEST_SAMPLINGRATE ==> r.testType == TestSamplingRate
    ensures idx == 1 && str == STRING_TEST_BITDEPTH ==> r.testType == TestBitDepth
    ensures idx == 1 && str != STRING_TEST_SAMPLINGRATE && str != STRING_TEST_BITDEPTH ==> r == res
    ensures idx == 2 ==> r.filename == res.filename && r.testType == res.testType
    ensures idx == 2 && str == STRING_TEST_PASS ==> r.correct
    ensures idx == 2 && str == STRING_TEST_FAIL ==> !r.correct
    ensures idx == 2 && str != STRING_TEST_PASS && str != STRING_TEST_FAIL ==> r == res
    ensures idx !in {0, 1, 2} ==> r == res
  {
    match idx
    case 0 => res.(filename := str)
    case 1 =>
      if str == STRING_TEST_SAMPLINGRATE then res.(testType := TestSamplingRate)
      else if str == STRING_TEST_BITDEPTH then res.(testType := TestBitDepth)
      else res
    case 2 =>
      if str == STRING_TEST_PASS then res.(correct := true)
      else if str == STRING_TEST_FAIL then res.(correct := false)
      else res
    case _ => res
  }

  /**
   * `Result::getData(idx)`: the file name, "Sampling Rate" or "Bit Depth",
   * "Pass" or "Fail". Writing the text back with `setData` restores the
   * record, for every column.
   */
  function ResultGetData(res: Result, idx: int): (r: string)
    ensures idx == 1 ==> r == STRING_TEST_SAMPLINGRATE || r == STRING_TEST_BITDEPTH
    ensures idx == 2 ==> r == STRING_TEST_PASS || r == STRING_TEST_FAIL
    ensures idx !in {0, 1, 2} ==> r == []
    ensures ResultSetData(res, idx, r) == res
  {
    match idx
    case 0 => res.filename
    case 1 =>
      assert STRING_TEST_BITDEPTH != STRING_TEST_SAMPLINGRATE by {
        assert STRING_TEST_BITDEPTH[0] == 'B' && STRING_TEST_SAMPLINGRATE[0] == 'S';
      }
      if res.testType == TestSamplingRate then STRING_TEST_SAMPLINGRATE
      else assert ResultSetData(res, 1, STRING_TEST_BITDEPTH).testType == TestBitDepth; STRING_TEST_BITDEPTH
    case 2 =>
      assert STRING_TEST_FAIL != STRING_TEST_PASS by {
        assert STRING_TEST_FAIL[0] == 'F' && STRING_TEST_PASS[0] == 'P';
      }
      if res.correct then STRING_TEST_PASS else STRING_TEST_FAIL
    case _ => ""
  }

  /** The shown text determines the record: different records show different text in some column. */
  lemma ResultTextDeterminesRecord(a: Result, b: Result)
    requires forall idx :: 0 <= idx < COLUMN_COUNT ==> ResultGetData(a, idx) == ResultGetData(b, idx)
    ensures a == b
  {
    assert ResultGetData(a, 0) == ResultGetData(b, 0);
    assert ResultGetData(a, 1) == ResultGetData(b, 1);
    assert ResultGetData(a, 2) == ResultGetData(b, 2);
  }

  /**
   * Copying one column's text from result `b` into result `a` copies exactly
   * that field: the text names the test type and the verdict unambiguously.
   */
  lemma ResultCopyColumn(a: Result, b: Result)
    ensures ResultSetData(a, 0, ResultGetData(b, 0)) == a.(filename := b.filename)
    ensures ResultSetData(a, 1, ResultGetData(b, 1)) == a.(testType := b.testType)
    ensures ResultSetData(a, 2, ResultGetData(b, 2)) == a.(correct := b.correct)
  {
    assert STRING_TEST_BITDEPTH != STRING_TEST_SAMPLINGRATE by {
      assert STRING_TEST_BITDEPTH[0] == 'B' && STRING_TEST_SAMPLINGRATE[0] == 'S';
    }
    assert STRING_TEST_FAIL != STRING_TEST_PASS by {
      assert STRING_TEST_FAIL[0] == 'F' && STRING_TEST_PASS[0] == 'P';
    }
  }

  /** `Result(filename, type, correct)`. */
  function NewResult(filename: string, testType: TestType, correct: bool): (r: Result)
    ensures ResultGetData(r, 0) == filename
    ensures ResultGetData(r, 1) == (if testType == TestSamplingRate then STRING_TEST_SAMPLINGRATE else STRING_TEST_BITDEPTH)
    ensures ResultGetData(r, 2) == (if correct then STRING_TEST_PASS else STRING_TEST_FAIL)
  {
    Result(filename, testType, correct)
  }

  // ---------------------------------------------------------------------------
  // List models

  datatype SongModel = SongModel(songs: seq<Song>)

  datatype ResultModel = ResultModel(results: seq<Result>)

  /**
   * The range of `size_t` in the build. The inline `__asm { int 3 }` trap of
   * `Song::setData` only compiles for 32-bit x86, where `size_t` is 32 bits
   * wide. A 64-bit build converts a negative index to a value that is even
   * further past the end.
   */
  const SIZE_T_MODULUS: int := 0x1_0000_0000

  /** The `size_t` an `int` index is converted to when compared with a vector size. */
  function AsSizeT(idx: int32): nat
  {
    if idx < 0 then idx + SIZE_T_MODULUS else idx
  }

  /**
   * A negative index converts to a huge `size_t`; for every vector that can
   * exist it is past the end. Only then is the index safe to use.
   */
  predicate IndexSafe(n: nat, idx: int32)
  {
    idx >= 0 || AsSizeT(idx) >= n
  }

  /** `rowCount`: the vector size converted to `int`. */
  function SongRowCount(m: SongModel): (r: int32)
    ensures |m.songs| <= INT32_MAX ==> r == |m.songs|
  {
    ToInt32(|m.songs|)
  }

  /**
   * `columnCount`: exactly the columns `getData` fills. Every column with
   * text lies below it, and every column below it shows text for a song
   * with a file name.
   */
  function SongColumnCount(): (r: int)
    ensures forall song: Song, idx: int :: SongGetData(song, idx) != [] ==> 0 <= idx < r
    ensures forall song: Song, idx: int :: 0 <= idx < r && song.filename != [] ==> SongGetData(song, idx) != []
  {
    COLUMN_COUNT
  }

  /** `appendSong`: the song becomes the last row; earlier rows are untouched. */
  function AppendSong(m: SongModel, song: Song): (r: SongModel)
    ensures |r.songs| == |m.songs| + 1
    ensures r.songs[|m.songs|] == song
    ensures forall j :: 0 <= j < |m.songs| ==> r.songs[j] == m.songs[j]
  {
    SongModel(m.songs + [song])
  }

  /**
   * `removeSong(idx)`: an index at or past the end (a negative one included,
   * through its unsigned conversion) changes nothing; otherwise exactly row
   * `idx` goes and the others keep their order.
   */
  function RemoveSong(m: SongModel, idx: int32): (r: SongModel)
    requires IndexSafe(|m.songs|, idx)
    ensures !(0 <= idx < |m.songs|) ==> r == m
    ensures 0 <= idx < |m.songs| ==>
              && |r.songs| == |m.songs| - 1
              && (forall j :: 0 <= j < idx ==> r.songs[j] == m.songs[j])
              && (forall j :: idx <= j < |r.songs| ==> r.songs[j] == m.songs[j + 1])
              && multiset(r.songs) + multiset{m.songs[idx]} == multiset(m.songs)
  {
    if AsSizeT(idx) >= |m.songs| then m
    else
      assert m.songs == m.songs[..idx] + [m.songs[idx]] + m.songs[idx + 1..];
      SongModel(m.songs[..idx] + m.songs[idx + 1..])
  }

  /** `getItem(idx)`: row `idx`, or a default song for an index at or past the end. */
  function GetItem(m: SongModel, idx: int32): (r: Song)
    requires IndexSafe(|m.songs|, idx)
    ensures 0 <= idx < |m.songs| ==> r == m.songs[idx]
    ensures !(0 <= idx < |m.songs|) ==> r == DefaultSong
  {
    if AsSizeT(idx) >= |m.songs| then DefaultSong else m.songs[idx]
  }

  /** Every negative index is past the end of any vector that fits in memory. */
  lemma NegativeIndexIsNoOp(m: SongModel, idx: int32)
    requires idx < 0 && |m.songs| <= INT32_MAX
    ensures IndexSafe(|m.songs|, idx)
    ensures RemoveSong(m, idx) == m && GetItem(m, idx) == DefaultSong
  {
  }

  /** Removing the row just appended restores the list. */
  lemma AppendThenRemove(m: SongModel, song: Song)
    requires |m.songs| <= INT32_MAX - 1
    ensures RemoveSong(AppendSong(m, song), |m.songs|) == m
    ensures GetItem(AppendSong(m, song), |m.songs|) == song
  {
    var a := AppendSong(m, song);
    assert a.songs[..|m.songs|] == m.songs;
  }

  /** After removing row `idx`, the rows behind it move up by one. */
  lemma RemoveShiftsRows(m: SongModel, idx: int32, j: int32)
    requires 0 <= idx < |m.songs| && 0 <= j
    requires j < INT32_MAX
    ensures GetItem(RemoveSong(m, idx), j) == GetItem(m, if j < idx then j else j + 1)
  {
  }

  /** `rowCount` of the result list. */
  function ResultRowCount(m: ResultModel): (r: int32)
    ensures |m.results| <= INT32_MAX ==> r == |m.results|
  {
    ToInt32(|m.results|)
  }

  /**
   * `columnCount` of the result list: exactly the columns `getData` fills,
   * as for songs.
   */
  function ResultColumnCount(): (r: int)
    ensures forall res: Result, idx: int :: ResultGetData(res, idx) != [] ==> 0 <= idx < r
    ensures forall res: Result, idx: int :: 0 <= idx < r && res.filename != [] ==> ResultGetData(res, idx) != []
  {
    COLUMN_COUNT
  }

  /** `appendResult`: the result becomes the last row; earlier rows are untouched. */
  function AppendResult(m: ResultModel, res: Result): (r: ResultModel)
    ensures |r.results| == |m.results| + 1
    ensures r.results[|m.results|] == res
    ensures forall j :: 0 <= j < |m.results| ==> r.results[j] == m.results[j]
  {
    ResultModel(m.results + [res])
  }

  /** `resetList`: the result list becomes empty. */
  function ResetList(m: ResultModel): (r: ResultModel)
    ensures ResultRowCount(r) == 0 && |r.results| == 0
  {
    ResultModel([])
  }

  /**
   * After a reset the list starts over: appending results yields exactly
   * those results, whatever the list held before.
   */
  lemma ResetThenAppend(m: ResultModel, x: Result, y: Result)
    ensures AppendResult(ResetList(m), x).results == [x]
    ensures AppendResult(AppendResult(ResetList(m), x), y).results == [x, y]
    ensures ResultRowCount(AppendResult(ResetList(m), x)) == 1
  {
  }
}
