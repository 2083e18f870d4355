/** One student record: identity and a validated attendance percentage. */
module Students {
  import opened Common

  const HadirNotNumberMsg: string := "Persentase kehadiran harus berupa angka."
  const HadirRangeMsg: string := "Persentase kehadiran harus antara 0..100"

  /** What the attendance setter raises for an input, or `Pass` when it
      stores it. */
  function HadirCheck(v: Input): (r: Outcome)
    ensures r == Pass <==> Accepts(v)
    ensures v.NotNumber? ==> r == Fail(ValueError(HadirNotNumberMsg))
    ensures !v.NotNumber? && !Accepts(v) ==> r == Fail(ValueError(HadirRangeMsg))
  {
    match v
    case NotNumber => Fail(ValueError(HadirNotNumberMsg))
    case NonFinite => Fail(ValueError(HadirRangeMsg))
    case Num(x) => if 0.0 <= x <= 100.0 then Pass else Fail(ValueError(HadirRangeMsg))
  }

  class Mahasiswa {
    /** Student id (NIM) and display name; set once at construction. */
    const nim: string
    const nama: string
    /** Attendance percentage, always within [0, 100]. */
    var hadirPersen: Score

    /** A new record keeps the given id and name and starts at 0% attendance. */
    constructor (nim: string, nama: string)
      ensures this.nim == nim && this.nama == nama
      ensures hadirPersen == 0.0
    {
      this.nim := nim;
      this.nama := nama;
      hadirPersen := 0.0;
    }

    /** The validating attendance setter: a number in [0, 100] is stored as is;
        anything else raises before the field is touched. Id and name are
        constants, so they cannot change. */
    method SetHadirPersen(v: Input) returns (r: Outcome)
      modifies this
      ensures r == HadirCheck(v)
      ensures Accepts(v) ==> hadirPersen == v.value
      ensures !Accepts(v) ==> hadirPersen == old(hadirPersen)
    {
      if v.NotNumber? {
        return Fail(ValueError(HadirNotNumberMsg));
      }
      if !(v.Num? && 0.0 <= v.value <= 100.0) {
        return Fail(ValueError(HadirRangeMsg));
      }
      hadirPersen := v.value;
      r := Pass;
    }
  }
}
