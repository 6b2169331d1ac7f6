/** Client intake (src/pages/test/OperatorRegistrasiTest.tsx): the age and
    age category computed from a birth date, the check that a
    category-scoped operator only registers clients of their own category,
    the save guard, and the category filter on the client lists. */
module Registration {
  import opened Common
  import opened Auth

  const OperatorAnakRole := "op_reg_anak"
  const OperatorDewasaRole := "op_reg_dewasa"

  /** A calendar date as `getFullYear`, `getMonth` (0..11) and `getDate`
      read it. */
  datatype Date = Date(year: int, month: int, day: int)

  /** Calendar order on dates. */
  predicate DateLe(a: Date, b: Date) {
    a.year < b.year
    || (a.year == b.year && (a.month < b.month || (a.month == b.month && a.day <= b.day)))
  }

  /** The `n`-th anniversary of a date. */
  function AddYears(d: Date, n: int): Date {
    Date(d.year + n, d.month, d.day)
  }

  /** `age` is the number of completed years from `birth` to `today`: the
      `age`-th birthday has been reached and the next one has not. */
  predicate IsCompletedYears(birth: Date, today: Date, age: int) {
    DateLe(AddYears(birth, age), today) && !DateLe(AddYears(birth, age + 1), today)
  }

  /** At most one number of completed years fits a pair of dates. */
  lemma CompletedYearsUnique(birth: Date, today: Date, a1: int, a2: int)
    requires IsCompletedYears(birth, today, a1) && IsCompletedYears(birth, today, a2)
    ensures a1 == a2
  {
  }

  datatype AgeCategory = Anak | Dewasa {
    function Name(): string {
      match this
      case Anak => "Anak"
      case Dewasa => "Dewasa"
    }
  }

  /** `kategoriByAge`: under 18 is a child. */
  function CategoryOf(age: int): (c: AgeCategory)
    ensures c == Anak <==> age < 18
  {
    if age < 18 then Anak else Dewasa
  }

  /** Which operator the signed-in user is, as `userRoleCategory` shows it:
      the child-operator role wins when both are held. */
  datatype OperatorScope = ScopeAnak | ScopeDewasa | ScopeAdmin

  function UserRoleCategory(user: Option<AuthUser>): (s: OperatorScope)
    ensures s == ScopeAdmin <==> !HasRole(user, OperatorAnakRole) && !HasRole(user, OperatorDewasaRole)
    ensures s == ScopeDewasa <==> !HasRole(user, OperatorAnakRole) && HasRole(user, OperatorDewasaRole)
  {
    if HasRole(user, OperatorAnakRole) then ScopeAnak
    else if HasRole(user, OperatorDewasaRole) then ScopeDewasa
    else ScopeAdmin
  }

  /** The blocking check of `calculateAgeAndCategory`, an if / else-if:
      a child operator entering an adult, or else an adult operator
      entering a child. */
  predicate Mismatch(isOpAnak: bool, isOpDewasa: bool, age: int) {
    if isOpAnak && age >= 18 then true
    else if isOpDewasa && age < 18 then true
    else false
  }

  const BlockAdultForChildOperator :=
    "BLOCK: Usia >= 18 Tahun. Anda login sebagai Operator Anak, tidak diizinkan menginput data Dewasa."
  const BlockChildForAdultOperator :=
    "BLOCK: Usia < 18 Tahun. Anda login sebagai Operator Dewasa, tidak diizinkan menginput data Anak."

  /** An operator holding exactly one of the two operator roles is blocked
      exactly when the computed category differs from that role's category. */
  lemma SingleRoleMismatchIff(isOpAnak: bool, isOpDewasa: bool, age: int)
    requires isOpAnak != isOpDewasa
    ensures Mismatch(isOpAnak, isOpDewasa, age) <==>
      CategoryOf(age) != (if isOpAnak then Anak else Dewasa)
  {
  }

  /** A user with neither operator role (an administrator) is never blocked;
      a user holding both is blocked at every age. */
  lemma MismatchByRoleCount(age: int)
    ensures !Mismatch(false, false, age)
    ensures Mismatch(true, true, age)
  {
  }

  /** `kategoriFix`: the computed category, overwritten by the child
      operator's category and then by the adult operator's. None stands for
      the empty string when no age has been computed. */
  function StoredCategory(isOpAnak: bool, isOpDewasa: bool, computed: Option<AgeCategory>): (c: Option<AgeCategory>)
    ensures isOpDewasa ==> c == Some(Dewasa)
    ensures isOpAnak && !isOpDewasa ==> c == Some(Anak)
    ensures !isOpAnak && !isOpDewasa ==> c == computed
  {
    var k := computed;
    var k := if isOpAnak then Some(Anak) else k;
    if isOpDewasa then Some(Dewasa) else k
  }

  /** A single-role operator who passes the mismatch check stores exactly
      the category that the client's age gives. */
  lemma SingleRoleStoresAgeCategory(isOpAnak: bool, isOpDewasa: bool, age: int)
    requires isOpAnak != isOpDewasa
    requires !Mismatch(isOpAnak, isOpDewasa, age)
    ensures StoredCategory(isOpAnak, isOpDewasa, Some(CategoryOf(age))) == Some(CategoryOf(age))
  {
    SingleRoleMismatchIff(isOpAnak, isOpDewasa, age);
  }

  datatype SaveOutcome = Blocked | Write(kategoriUsia: Option<AgeCategory>)

  /** The age fields of the intake form and the flag that blocks saving. */
  class RegistrationForm {
    const isOpAnak: bool
    const isOpDewasa: bool
    var hitungUsia: Option<int>
    var hitungKategori: Option<AgeCategory>
    var usiaWarning: Option<string>
    var isCategoryMismatch: bool

    /** The computed fields agree with the computed age, and the block flag
        is raised only for a computed age that mismatches the role. */
    ghost predicate Valid()
      reads this
    {
      && (hitungUsia.None? ==> hitungKategori.None? && !isCategoryMismatch)
      && (hitungUsia.Some? ==>
            hitungKategori == Some(CategoryOf(hitungUsia.value))
            && isCategoryMismatch == Mismatch(isOpAnak, isOpDewasa, hitungUsia.value))
    }

    constructor (user: Option<AuthUser>)
      ensures isOpAnak == HasRole(user, OperatorAnakRole)
      ensures isOpDewasa == HasRole(user, OperatorDewasaRole)
      ensures hitungUsia == None && hitungKategori == None && usiaWarning == None && !isCategoryMismatch
      ensures Valid()
    {
      isOpAnak := HasRole(user, OperatorAnakRole);
      isOpDewasa := HasRole(user, OperatorDewasaRole);
      hitungUsia := None;
      hitungKategori := None;
      usiaWarning := None;
      isCategoryMismatch := false;
    }

    /** `calculateAgeAndCategory`. An empty date (None) changes nothing;
        otherwise the age is the number of completed years, the category
        follows from it, and the block flag and warning follow the role. */
    method CalculateAgeAndCategory(birth: Option<Date>, today: Date)
      requires Valid()
      modifies this
      ensures Valid()
      ensures birth.None? ==>
        hitungUsia == old(hitungUsia) && hitungKategori == old(hitungKategori)
        && usiaWarning == old(usiaWarning) && isCategoryMismatch == old(isCategoryMismatch)
      ensures birth.Some? ==> hitungUsia.Some? && IsCompletedYears(birth.value, today, hitungUsia.value)
      ensures birth.Some? ==> hitungKategori == Some(CategoryOf(hitungUsia.value))
      ensures birth.Some? ==> isCategoryMismatch == Mismatch(isOpAnak, isOpDewasa, hitungUsia.value)
      ensures birth.Some? ==>
        usiaWarning == (if isOpAnak && hitungUsia.value >= 18 then Some(BlockAdultForChildOperator)
                        else if isOpDewasa && hitungUsia.value < 18 then Some(BlockChildForAdultOperator)
                        else None)
    {
      if birth.None? {
        return;
      }
      var b := birth.value;
      var age := today.year - b.year;
      var m := today.month - b.month;
      if m < 0 || (m == 0 && today.day < b.day) {
        age := age - 1;
      }
      hitungUsia := Some(age);
      hitungKategori := Some(if age < 18 then Anak else Dewasa);

      var mismatch := false;
      if isOpAnak && age >= 18 {
        usiaWarning := Some(BlockAdultForChildOperator);
        mismatch := true;
      } else if isOpDewasa && age < 18 {
        usiaWarning := Some(BlockChildForAdultOperator);
        mismatch := true;
      } else {
        usiaWarning := None;
        mismatch := false;
      }
      isCategoryMismatch := mismatch;
    }

    /** The effect on leaving edit mode: every computed field is cleared. */
    method ClearCalculation()
      modifies this
      ensures Valid()
      ensures hitungUsia == None && hitungKategori == None && usiaWarning == None && !isCategoryMismatch
    {
      hitungUsia := None;
      hitungKategori := None;
      usiaWarning := None;
      isCategoryMismatch := false;
    }

    /** `handleSaveKlienPerkara` up to the write: a raised block flag
        returns before anything is written; otherwise the client is written
        with `kategoriFix` as its category. */
    method SaveKlienPerkara() returns (o: SaveOutcome)
      requires Valid()
      ensures isCategoryMismatch <==> o == Blocked
      ensures !isCategoryMismatch ==> o == Write(StoredCategory(isOpAnak, isOpDewasa, hitungKategori))
      ensures o.Write? && isOpAnak != isOpDewasa && hitungUsia.Some? ==>
        o.kategoriUsia == Some(CategoryOf(hitungUsia.value))
    {
      if isCategoryMismatch {
        return Blocked;
      }
      var kategoriFix := hitungKategori;
      if isOpAnak {
        kategoriFix := Some(Anak);
      }
      if isOpDewasa {
        kategoriFix := Some(Dewasa);
      }
      if isOpAnak != isOpDewasa && hitungUsia.Some? {
        SingleRoleStoresAgeCategory(isOpAnak, isOpDewasa, hitungUsia.value);
      }
      return Write(kategoriFix);
    }
  }

  /** A client row as the client lists read it. */
  datatype Client = Client(idKlien: int, namaKlien: string, kategoriUsia: Option<string>)

  /** The category filter of `fetchReferences` and `fetchTableData`:
      the child operator sees child clients only, else the adult operator
      adult clients only, and everyone else every client. */
  function VisibleClients(isOpAnak: bool, isOpDewasa: bool, clients: seq<Client>): (r: seq<Client>)
    ensures IsSubsequence(r, clients)
    ensures isOpAnak ==> forall c :: c in r <==> c in clients && c.kategoriUsia == Some("Anak")
    ensures !isOpAnak && isOpDewasa ==> forall c :: c in r <==> c in clients && c.kategoriUsia == Some("Dewasa")
    ensures !isOpAnak && !isOpDewasa ==> r == clients
  {
    if isOpAnak then Filter(clients, (c: Client) => c.kategoriUsia == Some(Anak.Name()))
    else if isOpDewasa then Filter(clients, (c: Client) => c.kategoriUsia == Some(Dewasa.Name()))
    else
      assert IsSubsequence(Filter(clients, (c: Client) => true), clients);
      FilterAll(clients, (c: Client) => true);
      clients
  }
}
