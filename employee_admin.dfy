/** Employee administration (src/components/admin/EmployeeManagement.tsx):
    the employee form and the record written from it, the form loaded back
    from a record for editing, the add and edit handlers, the `has_user`
    flag that disables deletion, and the search box. */
module EmployeeAdmin {
  import opened Common

  /** The form state: every input is a string, empty when not filled in. */
  datatype EmployeeForm = EmployeeForm(
    nip: string,
    nama: string,
    namaGelar: string,
    nik: string,
    jenisKelamin: string,
    tempatLahir: string,
    tanggalLahir: string,
    agama: string,
    pangkatGolongan: string,
    tmtPangkat: string,
    jabatan: string,
    jenisJabatan: string,
    tmtJabatan: string,
    pendidikan: string,
    jurusanPendidikan: string,
    unitKerja: string,
    alamat: string,
    telepon: string,
    teleponKhusus: string,
    email: string,
    fotoUrl: string,
    fotoThumbnail: string,
    status: string)

  /** An employee record's data as written and read back: `nip` and `nama`
      are required columns, every other column is nullable. */
  datatype EmployeeData = EmployeeData(
    nip: string,
    nama: string,
    namaGelar: Option<string>,
    nik: Option<string>,
    jenisKelamin: Option<string>,
    tempatLahir: Option<string>,
    tanggalLahir: Option<string>,
    agama: Option<string>,
    pangkatGolongan: Option<string>,
    tmtPangkat: Option<string>,
    jabatan: Option<string>,
    jenisJabatan: Option<string>,
    tmtJabatan: Option<string>,
    pendidikan: Option<string>,
    jurusanPendidikan: Option<string>,
    unitKerja: Option<string>,
    alamat: Option<string>,
    telepon: Option<string>,
    teleponKhusus: Option<string>,
    email: Option<string>,
    fotoUrl: Option<string>,
    fotoThumbnail: Option<string>,
    status: Option<string>)

  datatype EmployeeRow = EmployeeRow(id: string, data: EmployeeData)

  const DefaultStatus := "Aktif"

  /** `emptyFormData`: every input empty, the status preset to "Aktif". */
  const EmptyForm := EmployeeForm("", "", "", "", "", "", "", "", "", "", "", "", "", "", "", "", "", "", "", "", "", "", DefaultStatus)

  /** `value || null` on a string input. */
  function NullIfEmpty(s: string): (r: Option<string>)
    ensures r.None? <==> s == ""
    ensures r.Some? ==> r.value == s
  {
    if s == "" then None else Some(s)
  }

  /** `value || ''` on a nullable column. */
  function EmptyIfNull(o: Option<string>): (s: string)
    ensures s == "" <==> o.None? || o == Some("")
    ensures o.Some? ==> s == o.value
  {
    o.GetOr("")
  }

  /** `value || 'Aktif'`, for the status in both directions. */
  function StatusOrDefault(s: string): (r: string)
    ensures r != ""
    ensures s != "" ==> r == s
  {
    if s == "" then DefaultStatus else s
  }

  /** No nullable column holds an empty string. */
  predicate NoEmptyColumns(d: EmployeeData) {
    d.namaGelar != Some("")
    && d.nik != Some("")
    && d.jenisKelamin != Some("")
    && d.tempatLahir != Some("")
    && d.tanggalLahir != Some("")
    && d.agama != Some("")
    && d.pangkatGolongan != Some("")
    && d.tmtPangkat != Some("")
    && d.jabatan != Some("")
    && d.jenisJabatan != Some("")
    && d.tmtJabatan != Some("")
    && d.pendidikan != Some("")
    && d.jurusanPendidikan != Some("")
    && d.unitKerja != Some("")
    && d.alamat != Some("")
    && d.telepon != Some("")
    && d.teleponKhusus != Some("")
    && d.email != Some("")
    && d.fotoUrl != Some("")
    && d.fotoThumbnail != Some("")
  }

  /** The record the add and edit handlers write: `nip` and `nama` as
      typed, every other input with empty mapped to null, and an empty
      status replaced by "Aktif". */
  function ToPayload(f: EmployeeForm): (d: EmployeeData)
    ensures d.nip == f.nip && d.nama == f.nama
    ensures d.status.Some? && d.status.value != ""
    ensures NoEmptyColumns(d)
  {
    EmployeeData(
      f.nip,
      f.nama,
      NullIfEmpty(f.namaGelar),
      NullIfEmpty(f.nik),
      NullIfEmpty(f.jenisKelamin),
      NullIfEmpty(f.tempatLahir),
      NullIfEmpty(f.tanggalLahir),
      NullIfEmpty(f.agama),
      NullIfEmpty(f.pangkatGolongan),
      NullIfEmpty(f.tmtPangkat),
      NullIfEmpty(f.jabatan),
      NullIfEmpty(f.jenisJabatan),
      NullIfEmpty(f.tmtJabatan),
      NullIfEmpty(f.pendidikan),
      NullIfEmpty(f.jurusanPendidikan),
      NullIfEmpty(f.unitKerja),
      NullIfEmpty(f.alamat),
      NullIfEmpty(f.telepon),
      NullIfEmpty(f.teleponKhusus),
      NullIfEmpty(f.email),
      NullIfEmpty(f.fotoUrl),
      NullIfEmpty(f.fotoThumbnail),
      Some(StatusOrDefault(f.status)))
  }

  /** `openEditDialog`: the form loaded from a record, null read as empty
      and a missing status read as "Aktif". */
  function FormOf(d: EmployeeData): (f: EmployeeForm)
    ensures f.nip == d.nip && f.nama == d.nama
    ensures f.status != ""
  {
    EmployeeForm(
      d.nip,
      d.nama,
      EmptyIfNull(d.namaGelar),
      EmptyIfNull(d.nik),
      EmptyIfNull(d.jenisKelamin),
      EmptyIfNull(d.tempatLahir),
      EmptyIfNull(d.tanggalLahir),
      EmptyIfNull(d.agama),
      EmptyIfNull(d.pangkatGolongan),
      EmptyIfNull(d.tmtPangkat),
      EmptyIfNull(d.jabatan),
      EmptyIfNull(d.jenisJabatan),
      EmptyIfNull(d.tmtJabatan),
      EmptyIfNull(d.pendidikan),
      EmptyIfNull(d.jurusanPendidikan),
      EmptyIfNull(d.unitKerja),
      EmptyIfNull(d.alamat),
      EmptyIfNull(d.telepon),
      EmptyIfNull(d.teleponKhusus),
      EmptyIfNull(d.email),
      EmptyIfNull(d.fotoUrl),
      EmptyIfNull(d.fotoThumbnail),
      StatusOrDefault(EmptyIfNull(d.status)))
  }

  /** Saving a form and opening the saved record for editing gives back the
      same form, except that an empty status comes back as "Aktif". */
  lemma FormRoundTrip(f: EmployeeForm)
    ensures FormOf(ToPayload(f)) == f.(status := StatusOrDefault(f.status))
  {
  }

  /** Opening a record and saving it unchanged writes the record back with
      empty strings turned into nulls and a missing status set to "Aktif";
      a record already in that form is written back as it was. */
  lemma RecordRoundTrip(d: EmployeeData)
    ensures ToPayload(FormOf(d)).nip == d.nip && ToPayload(FormOf(d)).nama == d.nama
    ensures ToPayload(FormOf(d)).status == Some(StatusOrDefault(EmptyIfNull(d.status)))
    ensures NoEmptyColumns(ToPayload(FormOf(d)))
    ensures d.status.Some? && d.status.value != "" && NoEmptyColumns(d) ==> ToPayload(FormOf(d)) == d
  {
  }

  /** The inputs the form has, one per column. */
  datatype FieldName = Nip | Nama | NamaGelar | Nik | JenisKelamin | TempatLahir | TanggalLahir | Agama | PangkatGolongan | TmtPangkat | Jabatan | JenisJabatan | TmtJabatan | Pendidikan | JurusanPendidikan | UnitKerja | Alamat | Telepon | TeleponKhusus | Email | FotoUrl | FotoThumbnail | Status

  function GetField(f: EmployeeForm, n: FieldName): string {
    match n
    case Nip => f.nip
    case Nama => f.nama
    case NamaGelar => f.namaGelar
    case Nik => f.nik
    case JenisKelamin => f.jenisKelamin
    case TempatLahir => f.tempatLahir
    case TanggalLahir => f.tanggalLahir
    case Agama => f.agama
    case PangkatGolongan => f.pangkatGolongan
    case TmtPangkat => f.tmtPangkat
    case Jabatan => f.jabatan
    case JenisJabatan => f.jenisJabatan
    case TmtJabatan => f.tmtJabatan
    case Pendidikan => f.pendidikan
    case JurusanPendidikan => f.jurusanPendidikan
    case UnitKerja => f.unitKerja
    case Alamat => f.alamat
    case Telepon => f.telepon
    case TeleponKhusus => f.teleponKhusus
    case Email => f.email
    case FotoUrl => f.fotoUrl
    case FotoThumbnail => f.fotoThumbnail
    case Status => f.status
  }

  /** An input's `onChange`: `{ ...formData, field: value }` replaces that
      input's value and leaves every other input as it was. */
  function SetField(f: EmployeeForm, n: FieldName, v: string): (r: EmployeeForm)
    ensures forall m :: GetField(r, m) == if m == n then v else GetField(f, m)
  {
    match n
    case Nip => f.(nip := v)
    case Nama => f.(nama := v)
    case NamaGelar => f.(namaGelar := v)
    case Nik => f.(nik := v)
    case JenisKelamin => f.(jenisKelamin := v)
    case TempatLahir => f.(tempatLahir := v)
    case TanggalLahir => f.(tanggalLahir := v)
    case Agama => f.(agama := v)
    case PangkatGolongan => f.(pangkatGolongan := v)
    case TmtPangkat => f.(tmtPangkat := v)
    case Jabatan => f.(jabatan := v)
    case JenisJabatan => f.(jenisJabatan := v)
    case TmtJabatan => f.(tmtJabatan := v)
    case Pendidikan => f.(pendidikan := v)
    case JurusanPendidikan => f.(jurusanPendidikan := v)
    case UnitKerja => f.(unitKerja := v)
    case Alamat => f.(alamat := v)
    case Telepon => f.(telepon := v)
    case TeleponKhusus => f.(teleponKhusus := v)
    case Email => f.(email := v)
    case FotoUrl => f.(fotoUrl := v)
    case FotoThumbnail => f.(fotoThumbnail := v)
    case Status => f.(status := v)
  }

  /** Add and edit both require a NIP and a name. */
  predicate Required(f: EmployeeForm) {
    f.nip != "" && f.nama != ""
  }

  const RequiredMessage := "NIP dan Nama wajib diisi"

  /** PostgreSQL's unique_violation SQLSTATE, raised for a NIP already in use. */
  const UniqueViolation := "23505"

  /** How a save ended: refused before any write, refused by the store
      because the NIP is taken, failed otherwise, or saved. */
  datatype SaveResult = Invalid | DuplicateNip | SaveFailed | Saved

  function SaveResultOf(writeError: Option<string>): (r: SaveResult)
    ensures r == Saved <==> writeError.None?
    ensures r == DuplicateNip <==> writeError == Some(UniqueViolation)
    ensures r != Invalid
  {
    match writeError
    case None => Saved
    case Some(code) => if code == UniqueViolation then DuplicateNip else SaveFailed
  }

  /** The dialogs' state: the form, the employee being edited, and whether
      the add and edit dialogs are open. */
  class EmployeeDialogs {
    var formData: EmployeeForm
    var selectedEmployee: Option<EmployeeRow>
    var showAddDialog: bool
    var showEditDialog: bool

    constructor ()
      ensures formData == EmptyForm && selectedEmployee == None && !showAddDialog && !showEditDialog
    {
      formData := EmptyForm;
      selectedEmployee := None;
      showAddDialog := false;
      showEditDialog := false;
    }

    /** An input's change handler. */
    method OnChange(n: FieldName, v: string)
      modifies this`formData
      ensures formData == SetField(old(formData), n, v)
      ensures forall m :: m != n ==> GetField(formData, m) == GetField(old(formData), m)
    {
      formData := SetField(formData, n, v);
    }

    /** `openEditDialog`. */
    method OpenEditDialog(employee: EmployeeRow)
      modifies this
      ensures selectedEmployee == Some(employee) && formData == FormOf(employee.data) && showEditDialog
      ensures showAddDialog == old(showAddDialog)
    {
      selectedEmployee := Some(employee);
      formData := FormOf(employee.data);
      showEditDialog := true;
    }

    /** `handleAddEmployee`. `insertError` is the store's error code for the
        insert, None on success; `sent` is the record written, if any. A
        successful add closes the dialog and empties the form; a failed one
        keeps both. */
    method HandleAdd(insertError: Option<string>) returns (sent: Option<EmployeeData>, result: SaveResult)
      modifies this
      ensures sent.Some? <==> Required(old(formData))
      ensures sent.Some? ==> sent.value == ToPayload(old(formData)) && result == SaveResultOf(insertError)
      ensures sent.None? ==> result == Invalid
      ensures result == Saved ==> formData == EmptyForm && !showAddDialog
      ensures result != Saved ==> formData == old(formData) && showAddDialog == old(showAddDialog)
      ensures selectedEmployee == old(selectedEmployee) && showEditDialog == old(showEditDialog)
    {
      if formData.nip == "" || formData.nama == "" {
        return None, Invalid;
      }
      sent := Some(ToPayload(formData));
      result := SaveResultOf(insertError);
      if result == Saved {
        showAddDialog := false;
        formData := EmptyForm;
      }
    }

    /** `handleEditEmployee`: like adding, but it also needs a selected
        employee, writes to that employee's id, and on success clears the
        selection. */
    method HandleEdit(updateError: Option<string>) returns (sent: Option<EmployeeRow>, result: SaveResult)
      modifies this
      ensures sent.Some? <==> old(selectedEmployee).Some? && Required(old(formData))
      ensures sent.Some? ==>
        sent.value == EmployeeRow(old(selectedEmployee).value.id, ToPayload(old(formData)))
        && result == SaveResultOf(updateError)
      ensures sent.None? ==> result == Invalid
      ensures result == Saved ==> formData == EmptyForm && !showEditDialog && selectedEmployee == None
      ensures result != Saved ==>
        formData == old(formData) && showEditDialog == old(showEditDialog) && selectedEmployee == old(selectedEmployee)
      ensures showAddDialog == old(showAddDialog)
    {
      if selectedEmployee.None? || formData.nip == "" || formData.nama == "" {
        return None, Invalid;
      }
      sent := Some(EmployeeRow(selectedEmployee.value.id, ToPayload(formData)));
      result := SaveResultOf(updateError);
      if result == Saved {
        showEditDialog := false;
        selectedEmployee := None;
        formData := EmptyForm;
      }
    }
  }

  /** An employee row as the table shows it. */
  datatype EmployeeWithUser = EmployeeWithUser(row: EmployeeRow, hasUser: bool)

  /** `has_user`: the rows in order, each flagged when some account's
      `employee_id` is its id. */
  function WithHasUser(employees: seq<EmployeeRow>, userEmployeeIds: seq<string>): (r: seq<EmployeeWithUser>)
    ensures |r| == |employees|
    ensures forall i :: 0 <= i < |r| ==> r[i].row == employees[i]
    ensures forall i :: 0 <= i < |r| ==> (r[i].hasUser <==> exists j :: 0 <= j < |userEmployeeIds| && userEmployeeIds[j] == employees[i].id)
  {
    var ids := set k | k in userEmployeeIds;
    seq(|employees|, i requires 0 <= i < |employees| => EmployeeWithUser(employees[i], employees[i].id in ids))
  }

  /** The delete button is disabled for an employee with an account. */
  function DeleteDisabled(e: EmployeeWithUser): bool {
    e.hasUser
  }

  /** An employee can be deleted from the table exactly when no account
      points to them. */
  lemma DeleteAllowedIff(employees: seq<EmployeeRow>, userEmployeeIds: seq<string>, i: int)
    requires 0 <= i < |employees|
    ensures !DeleteDisabled(WithHasUser(employees, userEmployeeIds)[i]) <==> employees[i].id !in userEmployeeIds
  {
  }

  /** The search predicate of `filteredEmployees`: the name, position or
      unit (lower-cased) contains the lower-cased term, or the NIP or NIK
      contains the term as typed; a missing position, unit or NIK matches
      nothing. `lower` stands for `toLowerCase`. */
  predicate MatchesSearch(e: EmployeeWithUser, searchTerm: string, lower: string -> string) {
    var d := e.row.data;
    || Contains(lower(d.nama), lower(searchTerm))
    || Contains(d.nip, searchTerm)
    || (d.jabatan.Some? && Contains(lower(d.jabatan.value), lower(searchTerm)))
    || (d.unitKerja.Some? && Contains(lower(d.unitKerja.value), lower(searchTerm)))
    || (d.nik.Some? && Contains(d.nik.value, searchTerm))
  }

  /** `filteredEmployees`: the matching rows in table order. */
  function FilteredEmployees(employees: seq<EmployeeWithUser>, searchTerm: string, lower: string -> string): (r: seq<EmployeeWithUser>)
    ensures IsSubsequence(r, employees)
    ensures forall e :: e in r ==> e in employees && MatchesSearch(e, searchTerm, lower)
    ensures forall e :: e in employees && MatchesSearch(e, searchTerm, lower) ==> e in r
  {
    Filter(employees, (e: EmployeeWithUser) => MatchesSearch(e, searchTerm, lower))
  }

  /** An empty search keeps every row: every NIP contains the empty string. */
  lemma EmptySearchKeepsAll(employees: seq<EmployeeWithUser>, lower: string -> string)
    ensures FilteredEmployees(employees, "", lower) == employees
  {
    FilterAll(employees, (e: EmployeeWithUser) => MatchesSearch(e, "", lower));
  }
}
