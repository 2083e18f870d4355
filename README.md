# Student performance tracker: record model and grading engine

A Dafny model of the in-memory core of the `tracker` package:

- `Mahasiswa` is a student record. It holds a NIM (student id), a name and an
  attendance percentage, and its attendance setter validates its input.
- `Penilaian` holds four grade components: quiz, tugas (assignment), uts
  (midterm) and uas (final exam). Each component has a validating setter.
  Its final score `nilai_akhir` is the weighted sum 15/25/25/35.
- `RekapKelas` is the class registry. It is a NIM-keyed, insertion-ordered
  dictionary of (student, grades) pairs. It offers registration, attendance
  and grade updates, the letter grade `predikat`, and the summary `rekap`.

Files and modules:

- `common.dfy` (`Common`): shared values.
  - `Score` is a real in [0, 100]. Every stored attendance and grade field has
    this type, so the range invariant holds in every reachable state.
  - `Input` is what Python's `float(v)` makes of a caller's value: a finite
    number, a NaN or infinity, or something that does not parse.
  - The errors (`ValueError`, `KeyError`, with their messages) and the
    `Result`/`Outcome` types that stand for a raised exception.
- `students.dfy` (`Students`): the `Mahasiswa` class. `nim` and `nama` are
  constants and `hadirPersen` is updated in place.
- `grades.dfy` (`Grades`): the `Penilaian` class, plus a value view of it.
  - `Komponen` is that value view.
  - `Validate` models `_validate`.
  - `Apply` is the specification of a run of setters that stops at the first
    one that raises. The partial update of `set_penilaian` and the validating
    constructor are both stated in terms of `Apply`.
  - `NilaiAkhirOf` is the weighted score.
- `registry.dfy` (`Registry`): the `RekapKelas` class and `Predikat`.
  - `keys` records the dictionary's insertion order.
  - `byNim` maps each NIM to an entry that refers to the student and grade
    objects.
  - `Valid()` says four things: the key list and the map hold the same NIMs,
    each once; every entry sits under its own student's NIM; and no two
    entries share a grade object.
- `scenario.dfy` (`Scenarios`): client methods that follow a registration, the
  updates and the summary through the contracts alone.

Two behaviours of the source worth knowing:

- `set_penilaian` is not all-or-nothing. The setters run in the order quiz,
  tugas, uts, uas. The first invalid value raises, and the components set
  before it keep their new values (`ApplyStopsAtFirstFailure`).
- Neither an empty NIM nor an empty name is rejected. The `Mahasiswa`
  constructor accepts any strings.

## Model

| member | source | states |
|---|---|---|
| Students.HadirCheck | tracker/mahasiswa.py:34-40 | the attendance setter passes exactly when the input is a number in [0, 100]; an unparsable input raises "harus berupa angka", and a number out of range (or NaN/inf) raises "harus antara 0..100" |
| Students.Mahasiswa.constructor | tracker/mahasiswa.py:9-19 | a new record keeps the given NIM and name and has attendance 0.0 |
| Students.Mahasiswa.SetHadirPersen | tracker/mahasiswa.py:28-41 | the outcome is `HadirCheck(v)`; on success the attendance becomes v; on failure it stays the same; NIM and name never change (they are constants) |
| Grades.Validate | tracker/penilaian.py:33-42 | returns v exactly when v is a number in [0, 100]; otherwise raises, with distinct messages for a non-number and an out-of-range value |
| Grades.Komponen.With | tracker/penilaian.py:50-84 | replacing one component sets that component and keeps the other three |
| Grades.SetField | tracker/penilaian.py:50-84 | one setter: it succeeds iff the input validates; on success only the named component changes, to the input's value; on failure nothing changes and the validation error is raised |
| Grades.Penilaian.Set | tracker/penilaian.py:44-84 | the four property setters: the new components and the outcome are `SetField` of the old ones, and no other component changes |
| Grades.Penilaian.constructor | tracker/penilaian.py:11-31 | construction with the default arguments gives all four components 0 |
| Grades.ConstructorRun | tracker/penilaian.py:27-31 | the constructor's setter run is the partial update with every argument supplied, in order quiz, tugas, uts, uas |
| Grades.DefaultConstructionSucceeds | tracker/penilaian.py:11-31 | running the constructor's setters on the default zeros always succeeds and yields all zeros |
| Grades.Penilaian.Create | tracker/penilaian.py:11-31 | validating construction: an object is returned iff the four arguments all validate, holding exactly those values; otherwise the first invalid argument's error is raised |
| Grades.RequestedExact | tracker/rekap_kelas.py:72-79 | the setter run holds a setter for a component exactly when its argument is not `None`, carrying that argument, and the setters come in the order quiz, tugas, uts, uas |
| Grades.ApplyPassIff | tracker/rekap_kelas.py:72-79 | a run of setters completes iff every value in it validates |
| Grades.ApplyConcat | tracker/rekap_kelas.py:72-79 | running two runs in sequence equals running their concatenation; a failure in the first skips the second |
| Grades.ApplyStopsAtFirstFailure | tracker/rekap_kelas.py:72-79 | when the setter at index j is the first to fail, the run raises that setter's error and keeps exactly what the setters before j assigned |
| Grades.ApplyFrame | tracker/rekap_kelas.py:72-79 | a component that no setter in the run names keeps its value |
| Grades.ApplyAssigns | tracker/rekap_kelas.py:72-79 | in a run that completes, a component takes the value of the last setter naming it |
| Grades.PartialUpdateSteps | tracker/rekap_kelas.py:72-79 | the partial update equals the four guarded `if v is not None` steps in a row |
| Grades.PartialUpdateKeepsOmitted | tracker/rekap_kelas.py:72-79 | every component whose argument is `None` is unchanged, whether or not the call raises |
| Grades.PartialUpdateAllValid | tracker/rekap_kelas.py:72-79 | the update succeeds iff every supplied argument validates, and then each supplied component equals its argument |
| Grades.NilaiAkhirOf | tracker/penilaian.py:94-99 | the final score (before rounding) of components in [0, 100] lies in [0, 100] |
| Grades.WeightsSumToOne | tracker/penilaian.py:94-99 | the weights 0.15, 0.25, 0.25 and 0.35 sum to 1 |
| Grades.NilaiAkhirBetween | tracker/penilaian.py:94-99 | the score is a weighted mean: if every component lies in [lo, hi], so does the score (so all at 100 give 100, all at 0 give 0) |
| Grades.NilaiAkhirMonotone | tracker/penilaian.py:94-99 | raising components never lowers the final score |
| Grades.NilaiAkhirExamples | tracker/penilaian.py:94-99 | worked values: all 100 give 100; all 0 give 0; (80, 70, 60, 50) gives 62; (90, 85, 80, 95) gives 88 |
| Grades.Penilaian.NilaiAkhir | tracker/penilaian.py:86-100 | a read that changes no field, within [0, 100] |
| Registry.Predikat | tracker/rekap_kelas.py:81-100 | "A" iff score >= 85, "B" iff in [75, 85), "C" iff in [65, 75), "D" iff in [50, 65), "E" iff below 50 |
| Registry.PredikatMonotone | tracker/rekap_kelas.py:92-100 | a higher score never gives a worse letter |
| Registry.PredikatBoundaries | tracker/rekap_kelas.py:92-100 | letters at and just below the thresholds: 85 gives A, 84.99 B, 75 B, 65 C, 50 D, 49.99 E |
| Registry.RekapKelas.constructor | tracker/rekap_kelas.py:15-21 | a new registry is empty and valid |
| Registry.RekapKelas.TambahMahasiswa | tracker/rekap_kelas.py:23-35 | a duplicate NIM raises "NIM … sudah ada." and leaves keys and map unchanged; otherwise exactly one entry is added under `mhs.nim`, at the end of the order, pairing `mhs` with a fresh all-zero `Penilaian`; all other entries stay |
| Registry.RekapKelas.GetItem | tracker/rekap_kelas.py:37-42 | returns the entry iff the NIM is registered, else the not-found `KeyError` |
| Registry.RekapKelas.SetHadir | tracker/rekap_kelas.py:44-54 | an unknown NIM raises not-found and changes nothing; otherwise the student's setter runs with its outcome passed on; other students, all grades and the key order are unchanged, and the registry stays valid |
| Registry.RekapKelas.SetPenilaian | tracker/rekap_kelas.py:56-79 | an unknown NIM raises not-found and changes nothing; otherwise the student's new components and the outcome are `PartialUpdate` of the old components; other entries, all student records and the key order are unchanged, and the registry stays valid |
| Registry.RekapKelas.Rekap | tracker/rekap_kelas.py:102-125 | one row per registered student in registration order (none for an empty registry): NIM, name and attendance from the record, `akhir` = the final score, `predikat` = `Predikat(akhir)`; reads only |

## Left out

- Grades.NilaiAkhirOf, Grades.Penilaian.NilaiAkhir, Registry.RekapKelas.Rekap: the score is the exact real weighted sum. `round(skor, 2)` and binary floating point are not modelled. `Predikat` and `akhir` in `Rekap` therefore use the unrounded score. Near a threshold (e.g. a sum of 84.996, which the source rounds to 85.0 and grades "A") the model's letter can differ.
- Students.Mahasiswa.SetHadirPersen, Registry.RekapKelas.SetHadir, Grades.Validate, Grades.Penilaian.Set, Grades.Penilaian.Create, Registry.RekapKelas.SetPenilaian: `float(v)` on a value of the wrong type (e.g. `None` passed as attendance, `Penilaian(quiz=None)`, a list) raises `TypeError`, and `float()` of an integer beyond the double range raises `OverflowError`; neither setter catches these. `Input` covers only values that parse to a float or raise `ValueError`, so these uncaught exceptions are not modelled.
- `Mahasiswa.info` and both `__repr__` methods: their output is fixed-point string formatting (`:.2f`) of floats, which is not modelled. They only read state.
- `nim` and `nama` are constants in the model. The core never reassigns them. In Python, a caller could reassign `mhs.nim` after registration and break the key invariant; the model rules that out.
- Aliasing between registries: the registry keeps a reference to the caller's `Mahasiswa`, and the model does too. If the same object is registered in two registries, one registry's `SetHadir` changes the other's row; the model's frames allow this but no lemma is stated about it.
- The CSV loader, the interactive menu, console and report rendering in `app.py`, and the report module imported by `tracker/__init__.py`. These are I/O; `tracker/report.py` is not part of this model.
