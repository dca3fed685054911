/** The DICOM Modality Worklist entry the radiology extension writes for an order (the
    worklist information model of DICOM PS3.4 Annex K): the tag values derived from the
    order, its sale order, its product and its patient, and the file the entry is saved to. */
module Worklist {
  import opened Wrappers
  import opened Text
  import opened Dates
  import opened Domain
  import Seqs

  const DefaultWorklistDir := "/opt/bahmni-erp/orthanc/worklists"
  /** Modality Worklist Information Model - FIND SOP Class. */
  const WorklistSopClass := "1.2.840.10008.5.1.4.31"
  const CharacterSet := "ISO_IR 100"
  const DefaultModality := "CR"
  const StationAETitle := "ABERSHUM"
  const DefaultProcedure := "Radiology Order"
  const UnknownPatientId := "UNKNOWN"
  const WorklistSuffix := ".wl"
  /** The longest SH (short string) and LO (long string) values, section 6.2 of DICOM PS3.5. */
  const ShortStringMax := 16
  const LongStringMax := 64

  /** What the entry depends on besides the records: the `ORTHANC_WORKLIST_PATH` setting
      ("" when unset), the current user's name and today's date. */
  datatype WorklistEnv = WorklistEnv(dirSetting: string, userName: string, today: CalendarDate)

  datatype PatientTags = PatientTags(name: string, id: string, birthDate: Option<string>, sex: string)

  /** The tags of one entry; the generated UIDs and the start time are not modelled. */
  datatype WorklistTags = WorklistTags(
    characterSet: string,
    accessionNumber: string,
    referringPhysicianName: string,
    patient: Option<PatientTags>,
    requestedProcedureDescription: string,
    requestedProcedureId: string,
    requestedProcedurePriority: string,
    modality: string,
    scheduledStationAETitle: string,
    stepStartDate: string,
    stepDescription: string,
    stepId: string)

  datatype WorklistFile = WorklistFile(path: string, sopClass: string, tags: WorklistTags)

  /** The directory the entry is written to: the setting, or the mounted default. */
  function WorklistDir(setting: string): (dir: string)
    ensures dir != ""
    ensures setting != "" ==> dir == setting
    ensures setting == "" ==> dir == DefaultWorklistDir
  {
    if setting == "" then DefaultWorklistDir else setting
  }

  function MissingDirMessage(dir: string): string {
    "Worklist directory " + dir + " does not exist. Please check ORTHANC_WORKLIST_PATH setting."
  }

  /** AccessionNumber: the order name cut to an SH value. */
  function AccessionNumber(name: string): (r: string)
    ensures |r| == (if |name| < ShortStringMax then |name| else ShortStringMax) && r == name[..|r|]
    ensures |r| <= ShortStringMax && StartsWith(name, r)
    ensures |name| <= ShortStringMax ==> r == name
  {
    Take(name, ShortStringMax)
  }

  /** A prefixed identifier cut to an SH value. */
  function PrefixedId(prefix: string, name: string): (r: string)
    requires |prefix| <= ShortStringMax
    ensures |r| == (if |prefix| + |name| < ShortStringMax then |prefix| + |name| else ShortStringMax)
    ensures r[..|prefix|] == prefix && r[|prefix|..] == name[..|r| - |prefix|]
    ensures |r| <= ShortStringMax && StartsWith(r, prefix) && StartsWith(prefix + name, r)
    ensures |prefix + name| <= ShortStringMax ==> r == prefix + name
  {
    var r := Take(prefix + name, ShortStringMax);
    assert r[..|prefix|] == (prefix + name)[..|prefix|];
    assert r[|prefix|..] == (prefix + name)[|prefix|..|r|];
    r
  }

  /** RequestedProcedureID: 'RP-' followed by as much of the order name as fits in 16. */
  function RequestedProcedureId(name: string): (r: string)
    ensures |r| == (if |name| < ShortStringMax - 3 then |name| + 3 else ShortStringMax)
    ensures r[..3] == "RP-" && r[3..] == name[..|r| - 3]
  {
    PrefixedId("RP-", name)
  }

  /** ScheduledProcedureStepID: 'SPS-' followed by as much of the order name as fits in 16. */
  function ScheduledStepId(name: string): (r: string)
    ensures |r| == (if |name| < ShortStringMax - 4 then |name| + 4 else ShortStringMax)
    ensures r[..4] == "SPS-" && r[4..] == name[..|r| - 4]
  {
    PrefixedId("SPS-", name)
  }

  /** The two procedure identifiers of one entry never coincide, whatever the order name. */
  lemma ProcedureIdsDiffer(name: string)
    ensures RequestedProcedureId(name) != ScheduledStepId(name)
  {
    assert RequestedProcedureId(name)[0] == 'R';
    assert ScheduledStepId(name)[0] == 'S';
  }

  /** An order name of at most 12 characters survives in all three identifiers. */
  lemma ShortNamesSurvive(name: string)
    requires |name| <= ShortStringMax - 4
    ensures AccessionNumber(name) == name
    ensures RequestedProcedureId(name)[3..] == name
    ensures ScheduledStepId(name)[4..] == name
  {
    assert RequestedProcedureId(name) == "RP-" + name;
    assert ScheduledStepId(name) == "SPS-" + name;
  }

  /** The procedure term: the product's name, or 'Radiology Order' for an order without product. */
  function ProcedureTerm(product: Option<Product>): (r: string)
    ensures product.None? ==> r == DefaultProcedure
    ensures product.Some? ==> r == product.value.name
  {
    if product.Some? then product.value.name else DefaultProcedure
  }

  /** A procedure description: the term cut to an LO value. */
  function ProcedureDescription(term: string): (r: string)
    ensures |r| == (if |term| < LongStringMax then |term| else LongStringMax) && r == term[..|r|]
    ensures |r| <= LongStringMax && StartsWith(term, r)
    ensures |term| <= LongStringMax ==> r == term
  {
    Take(term, LongStringMax)
  }

  /** The priority map with ROUTINE as its default. */
  function PriorityCode(key: string): (r: string)
    ensures r == "STAT" <==> key == "stat"
    ensures r == "HIGH" <==> key == "urgent"
    ensures r == "ROUTINE" <==> key != "stat" && key != "urgent"
  {
    var priorities := map["stat" := "STAT", "urgent" := "HIGH", "scheduled" := "ROUTINE"];
    if key in priorities then priorities[key] else "ROUTINE"
  }

  /** PatientSex: one of the enumerated values M, F, O of section C.7.1.1 of DICOM PS3.3. */
  function SexCode(gender: string): (r: string)
    ensures r == "M" <==> gender == "male"
    ensures r == "F" <==> gender == "female"
    ensures r == "O" <==> gender != "male" && gender != "female"
  {
    if gender == "" then "O"
    else if gender == "male" then "M"
    else if gender == "female" then "F"
    else "O"
  }

  /** ReferringPhysicianName: the provider of the sale order, else its salesperson, else the
      current user. */
  function ReferringPhysician(sale: Option<SaleOrder>, userName: string): (r: string)
    ensures sale.Some? && sale.value.providerName.Some? ==> r == sale.value.providerName.value
    ensures sale.Some? && sale.value.providerName.None? && sale.value.salespersonName.Some? ==>
      r == sale.value.salespersonName.value
    ensures sale.None? || (sale.value.providerName.None? && sale.value.salespersonName.None?) ==> r == userName
  {
    if sale.Some? && sale.value.providerName.Some? then sale.value.providerName.value
    else if sale.Some? && sale.value.salespersonName.Some? then sale.value.salespersonName.value
    else userName
  }

  /** The patient tags: name, patient id (the reference, or UNKNOWN), birth date as a DICOM
      DA value when set, and sex. */
  function PatientTagsOf(p: Partner): (t: PatientTags)
    ensures t.name == p.name
    ensures t.id == (if p.ref != "" then p.ref else UnknownPatientId)
    ensures t.birthDate.Some? <==> p.birthdate.Some?
    ensures p.birthdate.Some? ==> t.birthDate == Some(DicomDate(p.birthdate.value))
    ensures t.sex == SexCode(p.gender)
  {
    var id := if p.ref != "" then p.ref else UnknownPatientId;
    var birth := if p.birthdate.Some? then Some(DicomDate(p.birthdate.value)) else None;
    PatientTags(p.name, id, birth, SexCode(p.gender))
  }

  predicate IsAlnum(c: char) {
    'a' <= c <= 'z' || 'A' <= c <= 'Z' || '0' <= c <= '9'
  }

  /** The characters kept in a worklist file name. */
  predicate IsSafeChar(c: char) {
    IsAlnum(c) || c == '-' || c == '_'
  }

  /** Whitespace as `str.rstrip()` removes it (the ASCII and control separators). */
  predicate IsSpace(c: char) {
    c == ' ' || 9 <= c as int <= 13 || 28 <= c as int <= 31
  }

  /** `s.rstrip()`. */
  function RStripSpace(s: string): (r: string)
    ensures |r| <= |s| && r == s[..|r|]
    ensures r == [] || !IsSpace(r[|r| - 1])
    ensures forall i :: |r| <= i < |s| ==> IsSpace(s[i])
  {
    if s != [] && IsSpace(s[|s| - 1]) then RStripSpace(s[..|s| - 1]) else s
  }

  /** The file name stem: the characters of the order name that are letters, digits, '-' or
      '_', in order, right-stripped. */
  function SafeName(name: string): (r: string)
    ensures r == Seqs.Filter(name, IsSafeChar)
    ensures forall i :: 0 <= i < |r| ==> IsSafeChar(r[i])
    ensures forall c :: c in r <==> c in name && IsSafeChar(c)
    ensures forall c :: multiset(r)[c] == if IsSafeChar(c) then multiset(name)[c] else 0
  {
    var kept := Seqs.Filter(name, IsSafeChar);
    SafeCharsAreNotSpace(kept);
    forall c ensures multiset(kept)[c] == if IsSafeChar(c) then multiset(name)[c] else 0 {
      Seqs.FilterCount(name, IsSafeChar, c);
    }
    RStripSpace(kept)
  }

  /** No safe character is whitespace, so the right strip of the stem never removes anything. */
  lemma SafeCharsAreNotSpace(s: string)
    requires forall i :: 0 <= i < |s| ==> IsSafeChar(s[i])
    ensures RStripSpace(s) == s
  {
    if s != [] {
      assert IsSafeChar(s[|s| - 1]);
    }
  }

  function FileName(name: string): (f: string)
    ensures f == SafeName(name) + WorklistSuffix
    ensures |f| >= |WorklistSuffix| && f[|f| - |WorklistSuffix|..] == WorklistSuffix
    ensures forall i :: 0 <= i < |f| - |WorklistSuffix| ==> IsSafeChar(f[i])
  {
    SafeName(name) + WorklistSuffix
  }

  /** A character that is not kept does not change the file name, so two orders whose names
      differ only in such characters (say 'RAD/0001' and 'RAD0001') write the same file. */
  lemma UnsafeCharIgnored(a: string, c: char, b: string)
    requires !IsSafeChar(c)
    ensures FileName(a + [c] + b) == FileName(a + b)
  {
    FilterDropsUnsafe(a, c, b);
  }

  lemma FilterDropsUnsafe(a: string, c: char, b: string)
    requires !IsSafeChar(c)
    ensures Seqs.Filter(a + [c] + b, IsSafeChar) == Seqs.Filter(a + b, IsSafeChar)
  {
    assert Seqs.Filter(a + [c], IsSafeChar) == Seqs.Filter(a, IsSafeChar) by {
      Seqs.FilterAppend(a, [c], IsSafeChar);
      assert Seqs.Filter([c], IsSafeChar) == [] by {
        assert [c][..0] == [];
      }
    }
    assert Seqs.Filter(a + [c] + b, IsSafeChar) == Seqs.Filter(a, IsSafeChar) + Seqs.Filter(b, IsSafeChar) by {
      Seqs.FilterAppend(a + [c], b, IsSafeChar);
    }
    Seqs.FilterAppend(a, b, IsSafeChar);
  }

  /** `os.path.join(dir, file)` for a file name that does not start with a slash: the
      directory, one '/' unless it is empty or already ends with one, then the file. */
  function JoinPath(dir: string, file: string): (p: string)
    ensures |p| == |dir| + |file| + (if dir == [] || dir[|dir| - 1] == '/' then 0 else 1)
    ensures p[..|dir|] == dir && p[|p| - |file|..] == file
    ensures |p| > |dir| + |file| ==> p[|dir|] == '/'
  {
    if dir == [] || dir[|dir| - 1] == '/' then dir + file else dir + "/" + file
  }

  /** The entry for `order`, whose sale order, product and patient are `sale`, `product` and
      `patient` (each None when the order has none). */
  function WorklistOf(order: RadiologyOrder, sale: Option<SaleOrder>, product: Option<Product>,
                      patient: Option<Partner>, env: WorklistEnv): (f: WorklistFile)
    ensures f.sopClass == WorklistSopClass && f.tags.characterSet == CharacterSet
    ensures f.path == JoinPath(WorklistDir(env.dirSetting), FileName(order.name))
    ensures f.tags.accessionNumber == AccessionNumber(order.name)
    ensures f.tags.requestedProcedureId == RequestedProcedureId(order.name)
    ensures f.tags.stepId == ScheduledStepId(order.name)
    ensures f.tags.requestedProcedureId != f.tags.stepId
    ensures f.tags.referringPhysicianName == ReferringPhysician(sale, env.userName)
    ensures f.tags.requestedProcedureDescription == ProcedureDescription(ProcedureTerm(product))
    ensures f.tags.stepDescription == f.tags.requestedProcedureDescription
    ensures f.tags.requestedProcedurePriority == PriorityCode(if sale.Some? then sale.value.radiologyPriority else "")
    ensures f.tags.patient.Some? <==> patient.Some?
    ensures patient.Some? ==> f.tags.patient.value == PatientTagsOf(patient.value)
    ensures f.tags.stepStartDate == DicomDate(env.today)
    ensures f.tags.modality == DefaultModality && f.tags.scheduledStationAETitle == StationAETitle
  {
    ProcedureIdsDiffer(order.name);
    var description := ProcedureDescription(ProcedureTerm(product));
    var priority := PriorityCode(if sale.Some? then sale.value.radiologyPriority else "");
    var tags := WorklistTags(
      CharacterSet,
      AccessionNumber(order.name),
      ReferringPhysician(sale, env.userName),
      if patient.Some? then Some(PatientTagsOf(patient.value)) else None,
      description,
      RequestedProcedureId(order.name),
      priority,
      DefaultModality,
      StationAETitle,
      DicomDate(env.today),
      description,
      ScheduledStepId(order.name));
    WorklistFile(JoinPath(WorklistDir(env.dirSetting), FileName(order.name)), WorklistSopClass, tags)
  }

  function SaleOf(order: RadiologyOrder, w: World): Option<SaleOrder> {
    if order.saleOrderId.Some? && order.saleOrderId.value in w.saleOrders then Some(w.saleOrders[order.saleOrderId.value]) else None
  }

  function ProductOf(order: RadiologyOrder, w: World): Option<Product> {
    if order.productId.Some? && order.productId.value in w.products then Some(w.products[order.productId.value]) else None
  }

  /** The partner of the order's sale order. */
  function PatientOf(order: RadiologyOrder, w: World): Option<Partner> {
    var sale := SaleOf(order, w);
    if sale.Some? && sale.value.partner.Some? && sale.value.partner.value in w.partners then Some(w.partners[sale.value.partner.value]) else None
  }

  /** The entry for `order` with its linked records read from `w`. */
  function WorklistFor(order: RadiologyOrder, w: World, env: WorklistEnv): WorklistFile {
    WorklistOf(order, SaleOf(order, w), ProductOf(order, w), PatientOf(order, w), env)
  }

  /** The worklist folders on disk: which directories exist and which files they hold. */
  class WorklistFolder {
    var directories: set<string>
    var files: map<string, WorklistFile>

    constructor (directories: set<string>)
      ensures this.directories == directories && files == map[]
    {
      this.directories := directories;
      files := map[];
    }

    /** `create_worklist(order)`: raises when the worklist directory does not exist; otherwise
        saves the entry under its file name, replacing a file of the same path. */
    method CreateWorklist(order: RadiologyOrder, w: World, env: WorklistEnv) returns (r: Result<()>)
      modifies this
      ensures directories == old(directories)
      ensures r.Err? <==> WorklistDir(env.dirSetting) !in directories
      ensures r.Err? ==> r == Err("Exception", MissingDirMessage(WorklistDir(env.dirSetting))) && files == old(files)
      ensures r.Ok? ==> files == old(files)[WorklistFor(order, w, env).path := WorklistFor(order, w, env)]
    {
      var dir := WorklistDir(env.dirSetting);
      if dir !in directories {
        return Err("Exception", MissingDirMessage(dir));
      }
      var entry := WorklistFor(order, w, env);
      files := files[entry.path := entry];
      r := Ok(());
    }
  }
}
