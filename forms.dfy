/**
 * The submission form of importer/forms.py: the company is looked up by
 * name or made anew, a saved company may not receive a second file for the
 * same month of the same year, and saving stores a new company before the
 * file is attached to it. The database the form queries is a `Registry`
 * object whose companies are a map from name to primary key (names are
 * unique) and whose import files are a sequence.
 */
module Forms {
  import opened Text
  import opened Models

  /** A company as the form holds it: `pk` is None until it is saved. */
  datatype Company = Company(name: string, pk: Option<nat>)

  /** A `SalesImportFile`, by the key of its company and its month. */
  datatype ImportFile = ImportFile(company: nat, month: Date)

  /**
   * What `clean` ends with: no check made, the check passed, the duplicate
   * error, or the `KeyError` that reading a month the field validation
   * dropped raises.
   */
  datatype CleanResult = NoCheck | Passed | Duplicate(message: string) | MissingMonth

  /** `clean_company`: the saved company of that name, else a new unsaved one. */
  function CleanCompany(companies: map<string, nat>, name: string): (c: Company)
    ensures c.name == name
    ensures name in companies ==> c.pk == Some(companies[name])
    ensures name !in companies ==> c.pk.None?
  {
    if name in companies then Company(name, Some(companies[name])) else Company(name, None)
  }

  /** A file of the company with key `pk` in the month and year of `month`, whatever the day. */
  predicate SamePeriod(f: ImportFile, pk: nat, month: Date)
  {
    f.company == pk && f.month.month == month.month && f.month.year == month.year
  }

  predicate AlreadyImported(files: seq<ImportFile>, pk: nat, month: Date)
  {
    exists i :: 0 <= i < |files| && SamePeriod(files[i], pk, month)
  }

  /** The error text, with the month as the pt-BR `YEAR_MONTH_FORMAT` writes it. */
  function DuplicateMessage(month: Date, company: Company): string
  {
    "O arquivo do mês de " + MonthYearLabel(month) + " já foi importado para " + company.name
  }

  /**
   * `clean`: a missing or unsaved company is not checked; for a saved one
   * the month is read (None when its field failed validation, so that
   * `cleaned_data` lacks it) and checked against the files.
   */
  function Clean(files: seq<ImportFile>, company: Option<Company>, month: Option<Date>): (r: CleanResult)
    ensures r == NoCheck <==> company.None? || company.value.pk.None?
    ensures r == MissingMonth <==> company.Some? && company.value.pk.Some? && month.None?
    ensures r.Duplicate? <==>
      company.Some? && company.value.pk.Some? && month.Some? && AlreadyImported(files, company.value.pk.value, month.value)
    ensures r.Duplicate? ==> r.message == DuplicateMessage(month.value, company.value)
  {
    if company.None? || company.value.pk.None? then NoCheck
    else if month.None? then MissingMonth
    else if AlreadyImported(files, company.value.pk.value, month.value) then Duplicate(DuplicateMessage(month.value, company.value))
    else Passed
  }

  /** No two files share a company, a month and a year. */
  predicate Unique(files: seq<ImportFile>)
  {
    forall i, j :: 0 <= i < j < |files| ==> !SamePeriod(files[j], files[i].company, files[i].month)
  }

  class Registry {
    var companies: map<string, nat>
    var nextPk: nat
    var files: seq<ImportFile>

    /** Keys below `nextPk` are taken, and the files are unique per company and month. */
    predicate Valid()
      reads this
    {
      (forall n :: n in companies ==> companies[n] < nextPk) &&
      (forall i :: 0 <= i < |files| ==> files[i].company < nextPk) &&
      Unique(files)
    }

    constructor ()
      ensures Valid() && companies == map[] && files == [] && nextPk == 0
    {
      companies := map[];
      nextPk := 0;
      files := [];
    }

    /** `save`: a new company is saved first, then the file is stored for it. */
    method Save(company: Company, month: Date) returns (saved: Company)
      modifies this
      ensures company.pk.None? ==>
        saved == Company(company.name, Some(old(nextPk))) &&
        companies == old(companies)[company.name := old(nextPk)] && nextPk == old(nextPk) + 1
      ensures company.pk.Some? ==> saved == company && companies == old(companies) && nextPk == old(nextPk)
      ensures files == old(files) + [ImportFile(saved.pk.value, month)]
    {
      saved := company;
      if company.pk.None? {
        saved := Company(company.name, Some(nextPk));
        companies := companies[company.name := nextPk];
        nextPk := nextPk + 1;
      }
      files := files + [ImportFile(saved.pk.value, month)];
    }

    /**
     * The form submitted with a company name and a month that passed field
     * validation: cleaned, and saved unless `clean` raised the duplicate
     * error. It never stores a second file for the same company, month and
     * year.
     */
    method Submit(name: string, month: Date) returns (result: CleanResult)
      requires Valid()
      modifies this
      ensures Valid()
      ensures result == Clean(old(files), Some(CleanCompany(old(companies), name)), Some(month))
      ensures result.Duplicate? ==> files == old(files) && companies == old(companies) && nextPk == old(nextPk)
      ensures !result.Duplicate? ==> name in companies && files == old(files) + [ImportFile(companies[name], month)]
      ensures !result.Duplicate? ==>
        companies == (if name in old(companies) then old(companies) else old(companies)[name := old(nextPk)]) &&
        nextPk == (if name in old(companies) then old(nextPk) else old(nextPk) + 1)
    {
      var company := CleanCompany(companies, name);
      result := Clean(files, Some(company), Some(month));
      if result.Duplicate? {
        return;
      }
      if company.pk.None? {
        FreshKeyNeverImported(files, nextPk, month);
      } else {
        AppendKeepsUnique(files, company.pk.value, month);
      }
      ghost var before := files;
      var saved := Save(company, month);
      assert files == before + [ImportFile(saved.pk.value, month)];
      assert forall i :: 0 <= i < |before| ==> files[i] == before[i];
    }
  }

  // ---------------------------------------------------------------- lemmas

  /** A file for a company and month that none of the files has keeps them unique. */
  lemma AppendKeepsUnique(files: seq<ImportFile>, pk: nat, month: Date)
    requires Unique(files) && !AlreadyImported(files, pk, month)
    ensures Unique(files + [ImportFile(pk, month)])
  {
    var all := files + [ImportFile(pk, month)];
    forall i, j | 0 <= i < j < |all|
      ensures !SamePeriod(all[j], all[i].company, all[i].month)
    {
      if j == |files| {
        assert all[i] == files[i];
        if SamePeriod(all[j], all[i].company, all[i].month) {
          assert SamePeriod(files[i], pk, month);
        }
      } else {
        assert all[i] == files[i] && all[j] == files[j];
      }
    }
  }

  /** A key no file uses has nothing imported. */
  lemma FreshKeyNeverImported(files: seq<ImportFile>, pk: nat, month: Date)
    requires Unique(files) && forall i :: 0 <= i < |files| ==> files[i].company < pk
    ensures !AlreadyImported(files, pk, month)
    ensures Unique(files + [ImportFile(pk, month)])
  {
    AppendKeepsUnique(files, pk, month);
  }

  /** A name no saved company has is never refused as a duplicate. */
  lemma NewCompanyNeverDuplicate(companies: map<string, nat>, files: seq<ImportFile>, name: string, month: Option<Date>)
    requires name !in companies
    ensures Clean(files, Some(CleanCompany(companies, name)), month) == NoCheck
  {
  }

  /** The day of the month plays no part in the decision nor in the message. */
  lemma CleanIgnoresDay(files: seq<ImportFile>, company: Option<Company>, a: Date, b: Date)
    requires a.year == b.year && a.month == b.month
    ensures Clean(files, company, Some(a)) == Clean(files, company, Some(b))
  {
    if company.Some? && company.value.pk.Some? {
      var pk := company.value.pk.value;
      if AlreadyImported(files, pk, a) {
        var i :| 0 <= i < |files| && SamePeriod(files[i], pk, a);
        assert SamePeriod(files[i], pk, b);
      }
      if AlreadyImported(files, pk, b) {
        var i :| 0 <= i < |files| && SamePeriod(files[i], pk, b);
        assert SamePeriod(files[i], pk, a);
      }
    }
  }

  lemma JulyLabel(day: nat)
    ensures MonthYearLabel(Date(2018, 7, day)) == "Julho de 2018"
  {
    assert NatToString(2018) == "2018";
    assert MonthNames[6] == "Julho";
  }

  /** The error of the form's test: July 2018, already imported for "Company Name". */
  lemma DuplicateJuly2018(pk: nat, day: nat)
    ensures Clean([ImportFile(pk, Date(2018, 7, 1))], Some(Company("Company Name", Some(pk))), Some(Date(2018, 7, day)))
      == Duplicate("O arquivo do mês de Julho de 2018 já foi importado para Company Name")
  {
    JulyLabel(day);
    assert SamePeriod([ImportFile(pk, Date(2018, 7, 1))][0], pk, Date(2018, 7, day));
    // the sentence joined one piece at a time
    var withMonth := "O arquivo do mês de " + "Julho de 2018";
    assert withMonth == "O arquivo do mês de Julho de 2018";
    var withVerb := withMonth + " já foi importado para ";
    assert withVerb == "O arquivo do mês de Julho de 2018 já foi importado para ";
    assert withVerb + "Company Name" == "O arquivo do mês de Julho de 2018 já foi importado para Company Name";
  }

  /** A saved company submitted without a valid month makes `clean` raise; an unsaved one is not checked. */
  lemma MissingMonthOnlyForSaved(files: seq<ImportFile>, company: Company)
    ensures Clean(files, Some(company), None) == (if company.pk.Some? then MissingMonth else NoCheck)
  {
  }
}
