/** Clients of the registry: a student's life cycle followed through the
    contracts alone, with the values worked out in advance. */
module Scenarios {
  import opened Common
  import opened Grades
  import opened Students
  import opened Registry

  /** An empty registry summarises to nothing; a second registration under
      the same NIM is refused. */
  method Registration()
  {
    var rekap := new RekapKelas();
    var rows := rekap.Rekap();
    assert rows == [];

    var ana := new Mahasiswa("S1", "Ana");
    var r := rekap.TambahMahasiswa(ana);
    assert r == Pass && rekap.keys == ["S1"];
    r := rekap.TambahMahasiswa(ana);
    assert r.Fail? && rekap.keys == ["S1"];
    r := rekap.SetHadir("S2", Num(50.0));
    assert r.Fail? && r.error.KeyError?;
  }

  /** Grades and attendance set for one student end in a single row with the
      expected final score and letter. */
  method OneStudent()
  {
    var rekap := new RekapKelas();
    var ana := new Mahasiswa("S1", "Ana");
    var r := rekap.TambahMahasiswa(ana);
    r := rekap.SetPenilaian("S1", Some(Num(90.0)), Some(Num(85.0)), Some(Num(80.0)), Some(Num(95.0)));
    PartialUpdateSteps(Zero, Some(Num(90.0)), Some(Num(85.0)), Some(Num(80.0)), Some(Num(95.0)));
    assert r == Pass;
    r := rekap.SetHadir("S1", Num(92.5));
    assert r == Pass;
    r := rekap.SetHadir("S1", Num(120.0));
    assert r == Fail(ValueError(HadirRangeMsg));

    var rows := rekap.Rekap();
    assert rekap.byNim["S1"].nilai.Value() == Komponen(90.0, 85.0, 80.0, 95.0);
    assert rows == [Row("S1", "Ana", 92.5, 88.0, "A")];
  }

  /** A partial update that meets an out-of-range midterm keeps the quiz it
      already stored and never reaches the final exam. */
  method StopsAtFailure()
  {
    var p := new Penilaian();
    var o := p.Set(Tugas, Num(60.0));
    PartialUpdateSteps(p.Value(), Some(Num(70.0)), None, Some(Num(101.0)), Some(NotNumber));
    var k := PartialUpdate(p.Value(), Some(Num(70.0)), None, Some(Num(101.0)), Some(NotNumber));
    assert k == (Komponen(70.0, 60.0, 0.0, 0.0), Fail(ValueError(RangeMsg)));
  }
}
