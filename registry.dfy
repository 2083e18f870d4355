/** The class registry: students keyed by NIM in registration order, each
    paired with its grade components, plus the letter grade and the summary
    rows built from them. */
module Registry {
  import opened Common
  import opened Grades
  import opened Students

  /** One registry entry: the student record and its grade components. */
  datatype Entry = Entry(mhs: Mahasiswa, nilai: Penilaian)

  /** One summary row of `rekap`. */
  datatype Row = Row(nim: string, nama: string, hadir: real, akhir: real, predikat: string)

  function DuplicateMsg(nim: string): string
  {
    "NIM " + nim + " sudah ada."
  }

  function NotFoundMsg(nim: string): string
  {
    "NIM " + nim + " tidak ditemukan dalam rekap."
  }

  /** `predikat`: the letter of a score, by inclusive lower bounds 85, 75, 65
      and 50, tried from the top. */
  function Predikat(skor: real): (g: string)
    ensures g == "A" <==> 85.0 <= skor
    ensures g == "B" <==> 75.0 <= skor < 85.0
    ensures g == "C" <==> 65.0 <= skor < 75.0
    ensures g == "D" <==> 50.0 <= skor < 65.0
    ensures g == "E" <==> skor < 50.0
  {
    if skor >= 85.0 then "A"
    else if skor >= 75.0 then "B"
    else if skor >= 65.0 then "C"
    else if skor >= 50.0 then "D"
    else "E"
  }

  /** The order of the letters, best first: A ranks 4, E ranks 0. */
  function Rank(g: string): nat
  {
    if g == "A" then 4
    else if g == "B" then 3
    else if g == "C" then 2
    else if g == "D" then 1
    else 0
  }

  /** A higher score never earns a worse letter. */
  lemma PredikatMonotone(s: real, t: real)
    requires s <= t
    ensures Rank(Predikat(s)) <= Rank(Predikat(t))
  {
  }

  /** The letters at and just below each threshold. */
  lemma PredikatBoundaries()
    ensures Predikat(85.0) == "A" && Predikat(84.99) == "B"
    ensures Predikat(75.0) == "B" && Predikat(65.0) == "C"
    ensures Predikat(50.0) == "D" && Predikat(49.99) == "E"
  {
  }

  class RekapKelas {
    /** The keys of `_by_nim` in insertion order (a Python dict keeps it). */
    var keys: seq<string>
    /** `_by_nim`: NIM to student record and grade components. */
    var byNim: map<string, Entry>

    /** The keys list and the map describe the same NIMs, each once; every
        entry is filed under its own student's NIM; no two entries share a
        grade object. */
    ghost predicate Valid()
      reads this
    {
      && (forall k :: k in byNim <==> k in keys)
      && (forall i, j :: 0 <= i < j < |keys| ==> keys[i] != keys[j])
      && (forall k :: k in byNim ==> byNim[k].mhs.nim == k)
      && (forall k1, k2 :: k1 in byNim && k2 in byNim && k1 != k2 ==> byNim[k1].nilai != byNim[k2].nilai)
    }

    /** A new registry is empty. */
    constructor ()
      ensures Valid()
      ensures keys == [] && byNim == map[]
    {
      keys := [];
      byNim := map[];
    }

    /** `tambah_mahasiswa`: a NIM already present raises and changes nothing;
        otherwise the student is filed at the end of the order with a fresh,
        all-zero set of grade components, and every existing entry stays. */
    method TambahMahasiswa(mhs: Mahasiswa) returns (r: Outcome)
      requires Valid()
      modifies this
      ensures Valid()
      ensures mhs.nim in old(byNim) ==>
        && r == Fail(ValueError(DuplicateMsg(mhs.nim)))
        && keys == old(keys) && byNim == old(byNim)
      ensures mhs.nim !in old(byNim) ==>
        && r == Pass
        && keys == old(keys) + [mhs.nim]
        && mhs.nim in byNim
        && byNim == old(byNim)[mhs.nim := byNim[mhs.nim]]
        && byNim[mhs.nim].mhs == mhs
        && fresh(byNim[mhs.nim].nilai)
        && byNim[mhs.nim].nilai.Value() == Zero
    {
      if mhs.nim in byNim {
        return Fail(ValueError(DuplicateMsg(mhs.nim)));
      }
      var p := new Penilaian();
      byNim := byNim[mhs.nim := Entry(mhs, p)];
      keys := keys + [mhs.nim];
      r := Pass;
    }

    /** `_get_item_by_nim`: the entry under a NIM, or a not-found error. */
    function GetItem(nim: string): (r: Result<Entry>)
      reads this
      ensures r.Ok? <==> nim in byNim
      ensures r.Ok? ==> r.value == byNim[nim]
      ensures r.Err? ==> r.error == KeyError(NotFoundMsg(nim))
    {
      if nim in byNim then Ok(byNim[nim]) else Err(KeyError(NotFoundMsg(nim)))
    }

    /** `set_hadir`: an unknown NIM raises a not-found error and changes
        nothing; otherwise the student's attendance setter runs and its error,
        if any, is passed on. No other entry, and no grade, changes. */
    method SetHadir(nim: string, persen: Input) returns (r: Outcome)
      requires Valid()
      modifies if nim in byNim then {byNim[nim].mhs} else {}
      ensures Valid()
      ensures keys == old(keys) && byNim == old(byNim)
      ensures nim !in byNim ==> r == Fail(KeyError(NotFoundMsg(nim)))
      ensures nim in byNim ==>
        && r == HadirCheck(persen)
        && byNim[nim].mhs.hadirPersen
           == (if Accepts(persen) then persen.value else old(byNim[nim].mhs.hadirPersen))
      ensures forall k :: k in byNim && k != nim ==> unchanged(byNim[k].mhs)
      ensures forall k :: k in byNim ==> unchanged(byNim[k].nilai)
    {
      var item := GetItem(nim);
      if item.Err? {
        return Fail(item.error);
      }
      r := item.value.mhs.SetHadirPersen(persen);
    }

    /** `set_penilaian`: an unknown NIM raises a not-found error and changes
        nothing; otherwise the setters for the arguments that are not `None`
        run in the order quiz, tugas, uts, uas, and the first one that raises
        stops the call with the components set before it kept. No other entry,
        and no student record, changes. */
    method SetPenilaian(nim: string, quiz: Option<Input>, tugas: Option<Input>,
                        uts: Option<Input>, uas: Option<Input>) returns (r: Outcome)
      requires Valid()
      modifies if nim in byNim then {byNim[nim].nilai} else {}
      ensures Valid()
      ensures keys == old(keys) && byNim == old(byNim)
      ensures nim !in byNim ==> r == Fail(KeyError(NotFoundMsg(nim)))
      ensures nim in byNim ==>
        (byNim[nim].nilai.Value(), r)
        == PartialUpdate(old(byNim[nim].nilai.Value()), quiz, tugas, uts, uas)
      ensures forall k :: k in byNim && k != nim ==> unchanged(byNim[k].nilai)
      ensures forall k :: k in byNim ==> unchanged(byNim[k].mhs)
    {
      var item := GetItem(nim);
      if item.Err? {
        return Fail(item.error);
      }
      var p := item.value.nilai;
      PartialUpdateSteps(p.Value(), quiz, tugas, uts, uas);
      ghost var s0 := (p.Value(), Pass);
      r := Pass;
      if quiz.Some? {
        r := p.Set(Quiz, quiz.value);
        if r.Fail? { return; }
      }
      ghost var s1 := Then(s0, Quiz, quiz);
      assert (p.Value(), r) == s1;
      if tugas.Some? {
        r := p.Set(Tugas, tugas.value);
        if r.Fail? { return; }
      }
      ghost var s2 := Then(s1, Tugas, tugas);
      assert (p.Value(), r) == s2;
      if uts.Some? {
        r := p.Set(Uts, uts.value);
        if r.Fail? { return; }
      }
      assert (p.Value(), r) == Then(s2, Uts, uts);
      if uas.Some? {
        r := p.Set(Uas, uas.value);
      }
    }

    /** `rekap`: one row per registered student, in registration order, each
        carrying the student's NIM, name and attendance, the final score of
        their grade components and that score's letter. Reads only. */
    method Rekap() returns (rows: seq<Row>)
      requires Valid()
      ensures |rows| == |keys|
      ensures forall i :: 0 <= i < |rows| ==>
        && rows[i].nim == keys[i]
        && keys[i] in byNim
        && rows[i].nama == byNim[keys[i]].mhs.nama
        && rows[i].hadir == byNim[keys[i]].mhs.hadirPersen
        && rows[i].akhir == byNim[keys[i]].nilai.NilaiAkhir()
        && rows[i].predikat == Predikat(rows[i].akhir)
    {
      rows := [];
      for i := 0 to |keys|
        invariant |rows| == i
        invariant forall j :: 0 <= j < i ==>
          && rows[j].nim == keys[j]
          && keys[j] in byNim
          && rows[j].nama == byNim[keys[j]].mhs.nama
          && rows[j].hadir == byNim[keys[j]].mhs.hadirPersen
          && rows[j].akhir == byNim[keys[j]].nilai.NilaiAkhir()
          && rows[j].predikat == Predikat(rows[j].akhir)
      {
        var data := byNim[keys[i]];
        var mhs := data.mhs;
        var skorAkhir := data.nilai.NilaiAkhir();
        rows := rows + [Row(mhs.nim, mhs.nama, mhs.hadirPersen, skorAkhir, Predikat(skorAkhir))];
      }
    }
  }
}
