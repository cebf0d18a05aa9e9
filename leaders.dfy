/** The leader manager of `LeadersManager.tsx`: the phone formatter, the
    nullable age, and the edit form's defaults. */
module Leaders {
  import opened Wrappers
  import opened Text
  import opened Dates
  import opened Records

  /** `formatPhoneNumber`: ten digits, whatever surrounds them, become
      "(ddd) ddd-dddd"; any other input is returned as it is. */
  function FormatPhoneNumber(value: string): (r: string)
    ensures |Digits(value)| != 10 ==> r == value
    ensures |Digits(value)| == 10 ==> |r| == 14 && r[0] == '(' && r[4] == ')' && r[5] == ' ' && r[9] == '-'
  {
    var cleaned := Digits(value);
    if |cleaned| == 10 then "(" + cleaned[..3] + ") " + cleaned[3..6] + "-" + cleaned[6..] else value
  }

  /** The punctuation of the layout adds no digit. */
  lemma {:induction false} DigitsOfLayout(a: string, b: string, c: string)
    requires forall i :: 0 <= i < |a| ==> IsDigit(a[i])
    requires forall i :: 0 <= i < |b| ==> IsDigit(b[i])
    requires forall i :: 0 <= i < |c| ==> IsDigit(c[i])
    ensures Digits("(" + a + ") " + b + "-" + c) == a + b + c
  {
    var s1, s2, s3, s4 := "(" + a, "(" + a + ") ", "(" + a + ") " + b, "(" + a + ") " + b + "-";
    assert Digits("(") == [] && Digits("-") == [];
    assert Digits(") ") == [] by {
      assert ") "[1..] == " ";
    }
    DigitsOfDigits(a);
    DigitsOfDigits(b);
    DigitsOfDigits(c);
    DigitsAppend("(", a);
    assert Digits(s1) == a;
    DigitsAppend(s1, ") ");
    assert Digits(s2) == a;
    DigitsAppend(s2, b);
    assert Digits(s3) == a + b;
    DigitsAppend(s3, "-");
    assert Digits(s4) == a + b;
    DigitsAppend(s4, c);
  }

  /** The formatted number carries the same digits in the same order. */
  lemma PhoneDigitsKept(value: string)
    ensures Digits(FormatPhoneNumber(value)) == Digits(value)
  {
    var d := Digits(value);
    if |d| == 10 {
      DigitsOfLayout(d[..3], d[3..6], d[6..]);
      assert d[..3] + d[3..6] + d[6..] == d;
    }
  }

  /** Formatting an already formatted number changes nothing. */
  lemma FormatIdempotent(value: string)
    ensures FormatPhoneNumber(FormatPhoneNumber(value)) == FormatPhoneNumber(value)
  {
    PhoneDigitsKept(value);
  }

  /** The leader's `calculateAge`: no age without a birth date. */
  function LeaderAge(fechaNacimiento: Option<Date>, today: Date): (r: Option<int>)
    ensures r.None? <==> fechaNacimiento.None?
    ensures r.Some? ==>
              DateLe(Anniversary(fechaNacimiento.value, r.value), today) &&
              !DateLe(Anniversary(fechaNacimiento.value, r.value + 1), today)
  {
    match fechaNacimiento
    case None => None
    case Some(birth) => Some(Age(birth, today))
  }

  /** The form of the leader editor; a missing birth date is `None`. */
  datatype LeaderForm = LeaderForm(
    nombre: string,
    nombreFavorito: string,
    fechaNacimiento: Option<Date>,
    colorFavorito: string,
    direccion: string,
    telefono: string,
    fotoUrl: string,
    activo: bool)

  const DefaultColor: string := "#3B82F6"

  /** The empty form. */
  const DefaultForm: LeaderForm := LeaderForm("", "", None, DefaultColor, "", "", "", true)

  /** `x || d` on an optional string: '' counts as missing. */
  function OrDefault(x: Option<string>, d: string): string {
    if x.Some? && x.value != "" then x.value else d
  }

  /** The form `handleEdit` fills in from a leader. */
  function FormOf(leader: Lider): LeaderForm {
    LeaderForm(
      leader.nombre,
      OrDefault(leader.nombreFavorito, ""),
      leader.fechaNacimiento,
      OrDefault(leader.colorFavorito, DefaultColor),
      OrDefault(leader.direccion, ""),
      OrDefault(leader.telefono, ""),
      OrDefault(leader.fotoUrl, ""),
      leader.activo)
  }

  /** A leader without any optional field edits to the empty form, apart from
      the name and the active flag; an empty colour counts as missing. */
  lemma EditBareLeader(leader: Lider)
    requires leader.nombreFavorito.None? && leader.fechaNacimiento.None? && leader.direccion.None?
    requires leader.telefono.None? && leader.fotoUrl.None?
    requires leader.colorFavorito.None? || leader.colorFavorito == Some("")
    ensures FormOf(leader) == DefaultForm.(nombre := leader.nombre, activo := leader.activo)
  {
  }

  /** Fields the leader has, non-empty, are copied into the form unchanged. */
  lemma EditKeepsGivenFields(leader: Lider)
    ensures leader.nombreFavorito.Some? && leader.nombreFavorito.value != "" ==>
      FormOf(leader).nombreFavorito == leader.nombreFavorito.value
    ensures leader.colorFavorito.Some? && leader.colorFavorito.value != "" ==>
      FormOf(leader).colorFavorito == leader.colorFavorito.value
    ensures leader.telefono.Some? && leader.telefono.value != "" ==> FormOf(leader).telefono == leader.telefono.value
    ensures FormOf(leader).fechaNacimiento == leader.fechaNacimiento
    ensures FormOf(leader).colorFavorito != ""
  {
  }

  /** The state of the leader manager. */
  class LeadersManager {
    var showForm: bool
    var editingLeader: Option<Lider>
    var showColorPicker: bool
    var formData: LeaderForm

    constructor ()
      ensures !showForm && editingLeader.None? && !showColorPicker && formData == DefaultForm
    {
      showForm := false;
      editingLeader := None;
      showColorPicker := false;
      formData := DefaultForm;
    }

    /** `handlePhoneChange`: the typed number, formatted, goes into the form. */
    method HandlePhoneChange(value: string)
      modifies this`formData
      ensures formData == old(formData).(telefono := FormatPhoneNumber(value))
    {
      var formatted := FormatPhoneNumber(value);
      formData := formData.(telefono := formatted);
    }

    /** `handleEdit`: the leader is being edited, its fields fill the form and the form opens. */
    method HandleEdit(leader: Lider)
      modifies this`editingLeader, this`formData, this`showForm
      ensures editingLeader == Some(leader) && formData == FormOf(leader) && showForm
    {
      editingLeader := Some(leader);
      formData := FormOf(leader);
      showForm := true;
    }

    /** `resetForm`: the empty form, nothing being edited, the form and the colour picker closed. */
    method ResetForm()
      modifies this`formData, this`editingLeader, this`showForm, this`showColorPicker
      ensures formData == DefaultForm && editingLeader.None? && !showForm && !showColorPicker
    {
      formData := DefaultForm;
      editingLeader := None;
      showForm := false;
      showColorPicker := false;
    }
  }
}
