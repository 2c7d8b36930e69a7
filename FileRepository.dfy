/**
 * The pure parts of the file repository (server/src/repos/files.ts):
 *  - the month window of `getBucketFiles`, built with the JavaScript `Date`
 *    constructor, whose arithmetic is that of ECMA-262 (MakeDay, MakeTime,
 *    MakeDate, and the two-digit-year rule of the Date constructor);
 *  - the option-to-row mapping of `createFile`.
 * Time values are local time in milliseconds; the time-zone offset is not modelled.
 */
module FileRepository {
  import opened Wrappers

  /** The day number of 1 January of year `y`, with 0 for 1 January 1970: the
      year lengths summed from 1970. */
  function DayFromYear(y: int): int
    decreases if y < 1970 then 1970 - y else y - 1970
  {
    if y == 1970 then 0
    else if y > 1970 then DayFromYear(y - 1) + DaysInYear(y - 1)
    else DayFromYear(y + 1) - DaysInYear(y)
  }

  /** ECMA-262's closed form of DayFromYear. Dafny's `/` by a positive constant
      is the floor the standard asks for. */
  function EcmaDayFromYear(y: int): int
  {
    365 * (y - 1970) + (y - 1969) / 4 - (y - 1901) / 100 + (y - 1601) / 400
  }

  /** The Gregorian leap rule. */
  predicate InLeapYear(y: int)
  {
    y % 4 == 0 && (y % 100 != 0 || y % 400 == 0)
  }

  function DaysInYear(y: int): int
  {
    if InLeapYear(y) then 366 else 365
  }

  /** The length of month `m` (0 = January) of year `y`. */
  function DaysInMonth(y: int, m: int): (r: int)
    requires 0 <= m < 12
    ensures 28 <= r <= 31
    ensures m == 1 ==> r == DaysInYear(y) - 337
  {
    if m == 1 then (if InLeapYear(y) then 29 else 28)
    else if m == 3 || m == 5 || m == 8 || m == 10 then 30
    else 31
  }

  /** Days of year `y` before the first of month `m`. */
  function DaysBeforeMonth(y: int, m: int): int
    requires 0 <= m < 12
  {
    if m == 0 then 0 else DaysBeforeMonth(y, m - 1) + DaysInMonth(y, m - 1)
  }

  /** The twelve months fill the year. */
  lemma MonthsFillYear(y: int)
    ensures DaysBeforeMonth(y, 11) + DaysInMonth(y, 11) == DaysInYear(y)
  {
    assert DaysBeforeMonth(y, 1) == 31;
    assert DaysBeforeMonth(y, 2) == 31 + DaysInMonth(y, 1);
    assert DaysBeforeMonth(y, 3) == DaysBeforeMonth(y, 2) + 31;
    assert DaysBeforeMonth(y, 4) == DaysBeforeMonth(y, 3) + 30;
    assert DaysBeforeMonth(y, 5) == DaysBeforeMonth(y, 4) + 31;
    assert DaysBeforeMonth(y, 6) == DaysBeforeMonth(y, 5) + 30;
    assert DaysBeforeMonth(y, 7) == DaysBeforeMonth(y, 6) + 31;
    assert DaysBeforeMonth(y, 8) == DaysBeforeMonth(y, 7) + 31;
    assert DaysBeforeMonth(y, 9) == DaysBeforeMonth(y, 8) + 30;
    assert DaysBeforeMonth(y, 10) == DaysBeforeMonth(y, 9) + 31;
    assert DaysBeforeMonth(y, 11) == DaysBeforeMonth(y, 10) + 30;
  }

  /** ECMA-262 MakeDay: the day number of day `date` of month `month` of `year`.
      The month is first brought into 0..11 by carrying whole years (floor and
      modulo by 12), and a `date` outside the month runs into the neighbouring months. */
  function MakeDay(year: int, month: int, date: int): int
  {
    var ym, mn := year + month / 12, month % 12;
    DayFromYear(ym) + DaysBeforeMonth(ym, mn) + date - 1
  }

  /** ECMA-262 MakeTime. */
  function MakeTime(hour: int, min: int, sec: int, ms: int): int
  {
    hour * 3600000 + min * 60000 + sec * 1000 + ms
  }

  /** ECMA-262 MakeDate. */
  function MakeDate(day: int, time: int): int
  {
    day * 86400000 + time
  }

  /** The Date constructor reads a year from 0 to 99 as 1900 to 1999. */
  function FullYear(year: int): int
  {
    if 0 <= year <= 99 then 1900 + year else year
  }

  /** `new Date(year, month, date, hours, minutes, seconds, ms)` as a local time value. */
  function NewDate(year: int, month: int, date: int, hours: int, minutes: int, seconds: int, ms: int): int
  {
    MakeDate(MakeDay(FullYear(year), month, date), MakeTime(hours, minutes, seconds, ms))
  }

  /** `startOfMonth` of `getBucketFiles`, from `getFullYear()` and `getMonth()` of the requested date. */
  function StartOfMonth(year: int, month: int): int
  {
    NewDate(year, month, 1, 0, 0, 0, 0)
  }

  /** `endOfMonth` of `getBucketFiles`: day 0 of the following month, at 23:59:59.999. */
  function EndOfMonth(year: int, month: int): int
  {
    NewDate(year, month + 1, 0, 23, 59, 59, 999)
  }

  /** The first instant of month `m` of year `y`, for any `m` (months carry into
      years). The instants of a calendar month are those from its `MonthStart` up
      to, not including, the `MonthStart` of the month after. */
  function MonthStart(y: int, m: int): int
  {
    MakeDate(MakeDay(y, m, 1), 0)
  }

  /** Consecutive years are `DaysInYear` apart. */
  lemma DayFromYearStep(y: int)
    ensures DayFromYear(y + 1) == DayFromYear(y) + DaysInYear(y)
  {
  }

  /** One step of the closed form is one year length. */
  lemma EcmaDayFromYearStep(y: int)
    ensures EcmaDayFromYear(y + 1) == EcmaDayFromYear(y) + DaysInYear(y)
  {
    EcmaDifference(y);
    LeapStep4(y);
    LeapStep100(y);
    LeapStep400(y);
  }

  lemma EcmaDifference(y: int)
    ensures EcmaDayFromYear(y + 1) - EcmaDayFromYear(y) ==
            365 + ((y + 1 - 1969) / 4 - (y - 1969) / 4)
                - ((y + 1 - 1901) / 100 - (y - 1901) / 100)
                + ((y + 1 - 1601) / 400 - (y - 1601) / 400)
  {
  }

  lemma LeapStep4(y: int)
    ensures (y + 1 - 1969) / 4 - (y - 1969) / 4 == if y % 4 == 0 then 1 else 0
  {
  }

  lemma LeapStep100(y: int)
    ensures (y + 1 - 1901) / 100 - (y - 1901) / 100 == if y % 100 == 0 then 1 else 0
  {
  }

  lemma LeapStep400(y: int)
    ensures (y + 1 - 1601) / 400 - (y - 1601) / 400 == if y % 400 == 0 then 1 else 0
  {
  }

  /** The summed year lengths agree with ECMA-262's closed form for every year. */
  lemma {:induction false} DayFromYearIsEcma(y: int)
    ensures DayFromYear(y) == EcmaDayFromYear(y)
    decreases if y < 1970 then 1970 - y else y - 1970
  {
    if y > 1970 {
      DayFromYearIsEcma(y - 1);
      EcmaDayFromYearStep(y - 1);
    } else if y < 1970 {
      DayFromYearIsEcma(y + 1);
      EcmaDayFromYearStep(y);
    }
  }

  /** The first of the next month is the first of this month plus its length; for
      December the next month is January of the following year. */
  lemma MakeDayNextMonth(y: int, m: int)
    ensures 0 <= m % 12 < 12
    ensures MakeDay(y, m + 1, 1) == MakeDay(y, m, 1) + DaysInMonth(y + m / 12, m % 12)
  {
    var ym, mn := y + m / 12, m % 12;
    if mn == 11 {
      assert (m + 1) / 12 == m / 12 + 1 && (m + 1) % 12 == 0;
      DayFromYearStep(ym);
      MonthsFillYear(ym);
    } else {
      assert (m + 1) / 12 == m / 12 && (m + 1) % 12 == mn + 1;
    }
  }

  /** Day 0 of the following month is the last day of this month: the 28th, 29th,
      30th or 31st by the leap rule, and 31 December of the same year for December. */
  lemma EndOfMonthIsLastDay(year: int, month: int)
    requires 0 <= month < 12
    ensures EndOfMonth(year, month) == NewDate(year, month, DaysInMonth(FullYear(year), month), 23, 59, 59, 999)
    ensures month == 11 ==> EndOfMonth(year, month) == NewDate(year, 11, 31, 23, 59, 59, 999)
  {
    var fy := FullYear(year);
    MakeDayNextMonth(fy, month);
    assert MakeDay(fy, month + 1, 0) == MakeDay(fy, month + 1, 1) - 1;
    assert MakeDay(fy, month, DaysInMonth(fy, month)) == MakeDay(fy, month, 1) + DaysInMonth(fy, month) - 1;
  }

  /** `startOfMonth` is the first instant of the month. */
  lemma StartOfMonthIsMonthStart(year: int, month: int)
    ensures StartOfMonth(year, month) == MonthStart(FullYear(year), month)
  {
  }

  /** `endOfMonth` is one millisecond before the first instant of the next month. */
  lemma EndOfMonthBeforeNext(year: int, month: int)
    ensures EndOfMonth(year, month) + 1 == MonthStart(FullYear(year), month + 1)
  {
    var fy := FullYear(year);
    var next := MakeDay(fy, month + 1, 1);
    assert MakeDay(fy, month + 1, 0) == next - 1;
  }

  /** The first of a month is at least 28 days before the first of the next. */
  lemma MakeDayStep(y: int, m: int)
    ensures MakeDay(y, m, 1) + 28 <= MakeDay(y, m + 1, 1)
  {
    MakeDayNextMonth(y, m);
  }

  /** The inclusive window [startOfMonth, endOfMonth] of `getBucketFiles` covers
      exactly the instants of the calendar month (year `FullYear(year)`, month
      `month`): it starts at the month's first instant and ends one millisecond
      before the next month's, so the inclusive `lte` bound loses nothing and
      takes nothing from the next month. It is never empty. */
  lemma MonthWindowIsCalendarMonth(year: int, month: int)
    ensures StartOfMonth(year, month) == MonthStart(FullYear(year), month)
    ensures EndOfMonth(year, month) == MonthStart(FullYear(year), month + 1) - 1
    ensures StartOfMonth(year, month) < EndOfMonth(year, month)
  {
    var fy := FullYear(year);
    StartOfMonthIsMonthStart(year, month);
    EndOfMonthBeforeNext(year, month);
    MakeDayStep(fy, month);
    var d0, d1 := MakeDay(fy, month, 1), MakeDay(fy, month + 1, 1);
    assert MonthStart(fy, month) == d0 * 86400000;
    assert MonthStart(fy, month + 1) == d1 * 86400000;
  }

  /** Day numbers of month starts strictly increase along the month sequence. */
  lemma {:induction false} MakeDayIncreasing(y: int, m: int, n: int)
    requires m < n
    ensures MakeDay(y, m, 1) < MakeDay(y, n, 1)
    decreases n - m
  {
    MakeDayStep(y, n - 1);
    if m < n - 1 {
      MakeDayIncreasing(y, m, n - 1);
    }
  }

  /** A month counted from year 0: month `m` of year `y` is month `12 * y + m` of year 0. */
  lemma MakeDayRebase(y: int, m: int)
    ensures MakeDay(y, m, 1) == MakeDay(0, 12 * y + m, 1)
  {
    assert (12 * y + m) / 12 == y + m / 12 && (12 * y + m) % 12 == m % 12;
  }

  /** On day numbers: the month after an earlier month starts no later than a later month. */
  lemma MonthsOrderedDays(y1: int, m1: int, y2: int, m2: int)
    requires 12 * y1 + m1 < 12 * y2 + m2
    ensures MakeDay(y1, m1 + 1, 1) <= MakeDay(y2, m2, 1)
  {
    var k1, k2 := 12 * y1 + m1, 12 * y2 + m2;
    MakeDayRebase(y1, m1 + 1);
    MakeDayRebase(y2, m2);
    assert 12 * y1 + (m1 + 1) == k1 + 1;
    if k1 + 1 < k2 {
      MakeDayIncreasing(0, k1 + 1, k2);
    }
  }

  /** The month after an earlier month starts no later than a later month. */
  lemma MonthStartsOrdered(y1: int, m1: int, y2: int, m2: int)
    requires 12 * y1 + m1 < 12 * y2 + m2
    ensures MonthStart(y1, m1 + 1) <= MonthStart(y2, m2)
  {
    MonthsOrderedDays(y1, m1, y2, m2);
  }

  /** Windows follow the calendar: the window of an earlier month ends before the
      window of a later month starts, so no file falls into two buckets. */
  lemma MonthWindowsOrdered(year1: int, month1: int, year2: int, month2: int)
    requires 12 * FullYear(year1) + month1 < 12 * FullYear(year2) + month2
    ensures EndOfMonth(year1, month1) < StartOfMonth(year2, month2)
  {
    EndOfMonthBeforeNext(year1, month1);
    StartOfMonthIsMonthStart(year2, month2);
    MonthStartsOrdered(FullYear(year1), month1, FullYear(year2), month2);
  }

  // ---------------------------------------------------------------------------
  // createFile: the options object and the row it inserts

  datatype FileType = Image | Video | Audio

  /** The uploaded file's name and content type. */
  datatype UploadedFile = UploadedFile(name: string, contentType: string)

  /** EXIF data, an arbitrary record. */
  datatype ExifData = ExifData(entries: map<string, string>)

  /** The fields every create-file option carries. */
  datatype CreateFileBase = CreateFileBase(
    id: int, fileType: FileType, file: UploadedFile, userId: int,
    albumId: Option<int>, size: int, s3Key: string, createdAt: int)

  /** The options object; each `Option` field is a key that may be absent, as the
      `in` checks of `createFile` see it. */
  datatype CreateFileOptions = CreateFileOptions(
    base: CreateFileBase,
    width: Option<int>, height: Option<int>, duration: Option<real>,
    exifData: Option<ExifData>, waveform: Option<seq<real>>)

  /** A `CreateImageOptions` object: width and height, maybe duration and EXIF, no waveform key. */
  function ImageOptions(base: CreateFileBase, width: int, height: int,
                        duration: Option<real>, exifData: Option<ExifData>): CreateFileOptions
  {
    CreateFileOptions(base, Some(width), Some(height), duration, exifData, None)
  }

  /** A `CreateAudioOptions` object: duration and waveform, maybe EXIF, no width or height key. */
  function AudioOptions(base: CreateFileBase, duration: real, waveform: seq<real>,
                        exifData: Option<ExifData>): CreateFileOptions
  {
    CreateFileOptions(base, None, None, Some(duration), exifData, Some(waveform))
  }

  /** The row `createFile` inserts into `files`; `None` is SQL null. `duration` and
      `waveform` are `real` columns, the others whole numbers. */
  datatype FileRow = FileRow(
    id: int, userId: int, albumId: Option<int>, fileName: string, mimeType: string,
    fileType: FileType, size: int, s3Key: string, createdAt: int,
    width: Option<int>, height: Option<int>, duration: Option<real>,
    exifData: Option<ExifData>, waveform: Option<seq<real>>)

  /** The `values({...})` object of `createFile`. Every column comes from exactly
      one option and no option is dropped: the options can be read back from the row. */
  function CreateFileRow(options: CreateFileOptions): (r: FileRow)
    ensures RowOptions(r) == options
  {
    var b := options.base;
    FileRow(b.id, b.userId, b.albumId, b.file.name, b.file.contentType, b.fileType,
            b.size, b.s3Key, b.createdAt,
            options.width, options.height, options.duration, options.exifData, options.waveform)
  }

  /** Reading the options back from a row: the inverse of `CreateFileRow`. */
  function RowOptions(row: FileRow): CreateFileOptions
  {
    CreateFileOptions(
      CreateFileBase(row.id, row.fileType, UploadedFile(row.fileName, row.mimeType), row.userId,
                     row.albumId, row.size, row.s3Key, row.createdAt),
      row.width, row.height, row.duration, row.exifData, row.waveform)
  }

  /** Columns of an image: the base fields copied, width and height set,
      no waveform; duration and EXIF as given or null. */
  lemma ImageRow(base: CreateFileBase, width: int, height: int,
                 duration: Option<real>, exifData: Option<ExifData>)
    ensures var row := CreateFileRow(ImageOptions(base, width, height, duration, exifData));
      row.id == base.id && row.userId == base.userId && row.albumId == base.albumId &&
      row.fileName == base.file.name && row.mimeType == base.file.contentType &&
      row.fileType == base.fileType && row.size == base.size && row.s3Key == base.s3Key &&
      row.createdAt == base.createdAt &&
      row.width == Some(width) && row.height == Some(height) &&
      row.duration == duration && row.exifData == exifData && row.waveform == None
  {
  }

  /** Columns of an audio file: width and height null, duration and waveform set. */
  lemma AudioRow(base: CreateFileBase, duration: real, waveform: seq<real>, exifData: Option<ExifData>)
    ensures var row := CreateFileRow(AudioOptions(base, duration, waveform, exifData));
      row.id == base.id && row.userId == base.userId && row.albumId == base.albumId &&
      row.fileName == base.file.name && row.mimeType == base.file.contentType &&
      row.fileType == base.fileType && row.size == base.size && row.s3Key == base.s3Key &&
      row.createdAt == base.createdAt &&
      row.width == None && row.height == None &&
      row.duration == Some(duration) && row.exifData == exifData && row.waveform == Some(waveform)
  {
  }
}
