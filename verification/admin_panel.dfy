/** The plain workspace form (admin-panel.component.ts): its six text
    controls, their validators (lines 35-44) and the message shown under a
    control (lines 180-194). */
module AdminPanel {
  import opened Wrappers
  import opened Text
  import opened Coordinates
  import opened FormControls

  /** The text in each control of the form. */
  datatype FormValues = FormValues(
    name: string, description: string, address: string, city: string,
    latitude: string, longitude: string)

  datatype Field = Name | Description | Address | City | Latitude | Longitude

  /** `workspaceForm.get(fieldName)`: the control registered under that
      name, if any. */
  function Lookup(fieldName: string): (r: Option<Field>)
  {
    if fieldName == "name" then Some(Name)
    else if fieldName == "description" then Some(Description)
    else if fieldName == "address" then Some(Address)
    else if fieldName == "city" then Some(City)
    else if fieldName == "latitude" then Some(Latitude)
    else if fieldName == "longitude" then Some(Longitude)
    else None
  }

  /** The errors each control's validators raise on its text. */
  function ControlErrorsOf(f: Field, v: FormValues): ControlErrors {
    match f
    case Name => TextErrors(v.name, true, Some(3), false, true)
    case Description => TextErrors(v.description, true, None, false, true)
    case Address => TextErrors(v.address, true, None, false, true)
    case City => TextErrors(v.city, true, None, false, true)
    case Latitude => TextErrors(v.latitude, false, None, true, LatitudePattern(v.latitude))
    case Longitude => TextErrors(v.longitude, false, None, true, LongitudePattern(v.longitude))
  }

  /** The message for a control with errors `e`: the first of required,
      minlength, pattern, or nothing. The minimum length in the message is
      the literal 3 whatever the control's bound. */
  function MessageFor(fieldName: string, e: ControlErrors): (r: string)
    ensures e.required ==> r == Capitalize(fieldName) + " is required"
    ensures !e.required && e.minLength.Some? ==> r == Capitalize(fieldName) + " must be at least 3 characters"
    ensures !e.required && e.minLength.None? && e.pattern ==> r == "Invalid " + fieldName + " format"
    ensures r == "" <==> !e.required && e.minLength.None? && !e.pattern
  {
    if e.required then Capitalize(fieldName) + " is required"
    else if e.minLength.Some? then Capitalize(fieldName) + " must be at least 3 characters"
    else if e.pattern then "Invalid " + fieldName + " format"
    else ""
  }

  /** `getErrorMessage`: nothing for a name no control is registered
      under; otherwise the message for the first error the control has,
      among required, minlength and pattern, and nothing for a valid
      control. */
  function GetErrorMessage(fieldName: string, v: FormValues): (r: string)
    ensures Lookup(fieldName).None? ==> r == ""
    ensures Lookup(fieldName).Some? ==>
      var e := ControlErrorsOf(Lookup(fieldName).value, v);
      && (e.required ==> r == Capitalize(fieldName) + " is required")
      && (!e.required && e.minLength.Some? ==> r == Capitalize(fieldName) + " must be at least 3 characters")
      && (!e.required && e.minLength.None? && e.pattern ==> r == "Invalid " + fieldName + " format")
      && (r == "" <==> !HasError(e))
  {
    match Lookup(fieldName)
    case None => ""
    case Some(f) => MessageFor(fieldName, ControlErrorsOf(f, v))
  }

  /** The name control's message: required when empty, too short below
      three UTF-16 code units, nothing otherwise. */
  lemma NameMessages(v: FormValues)
    ensures GetErrorMessage("name", v) ==
      if v.name == [] then "Name is required"
      else if Utf16Length(v.name) < 3 then "Name must be at least 3 characters"
      else ""
  {
    if v.name == [] {
      NameRequired(v);
    } else if Utf16Length(v.name) < 3 {
      NameTooShort(v);
    } else {
      assert Lookup("name") == Some(Name);
      assert !HasError(ControlErrorsOf(Name, v));
    }
  }

  lemma NameRequired(v: FormValues)
    requires v.name == []
    ensures GetErrorMessage("name", v) == "Name is required"
  {
    assert Lookup("name") == Some(Name);
    assert ControlErrorsOf(Name, v).required;
    assert Capitalize("name") == "Name";
  }

  lemma NameTooShort(v: FormValues)
    requires v.name != [] && Utf16Length(v.name) < 3
    ensures GetErrorMessage("name", v) == "Name must be at least 3 characters"
  {
    var m := Capitalize("name") + " must be at least 3 characters";
    assert m == "Name must be at least 3 characters" by {
      assert Capitalize("name") == "Name";
    }
    assert Lookup("name") == Some(Name);
    assert !ControlErrorsOf(Name, v).required;
  }

  /** The latitude control's only message is the format one, shown exactly
      when the text is non-empty and does not match the pattern. */
  lemma LatitudeMessages(v: FormValues)
    ensures GetErrorMessage("latitude", v) ==
      if v.latitude != [] && !LatitudePattern(v.latitude) then "Invalid latitude format" else ""
  {
    assert "latitude" != "name" && "latitude" != "description";
    assert "latitude" != "address" && "latitude" != "city";
    assert Lookup("latitude") == Some(Latitude);
  }

  /** Likewise for the longitude control. */
  lemma LongitudeMessages(v: FormValues)
    ensures GetErrorMessage("longitude", v) ==
      if v.longitude != [] && !LongitudePattern(v.longitude) then "Invalid longitude format" else ""
  {
    assert "longitude" != "name" && "longitude" != "description";
    assert "longitude" != "address" && "longitude" != "city" && "longitude" != "latitude";
    assert Lookup("longitude") == Some(Longitude);
  }

  /** An empty name is required. */
  lemma EmptyNameMessage(v: FormValues)
    ensures GetErrorMessage("name", v.(name := "")) == "Name is required"
  {
    NameMessages(v.(name := ""));
  }

  /** A two-letter name is too short. */
  lemma ShortNameMessage(v: FormValues)
    ensures GetErrorMessage("name", v.(name := "ab")) == "Name must be at least 3 characters"
  {
    NameMessages(v.(name := "ab"));
    assert "ab"[1..] == "b" && "b"[1..] == [];
  }

  /** "91" is not a latitude. */
  lemma OutOfRangeLatitudeMessage(v: FormValues)
    ensures GetErrorMessage("latitude", v.(latitude := "91")) == "Invalid latitude format"
  {
    LatitudeRefusesNinetyOne();
    LatitudeMessages(v.(latitude := "91"));
  }

  /** "90.5" passes the form. The form posts a `WorkSpaceDto`, whose
      latitude carries no range attribute, so the pattern is the only check
      a latitude meets on this path and 90.5 is stored as given. */
  lemma LatitudeAboveNinetyPasses(v: FormValues)
    ensures GetErrorMessage("latitude", v.(latitude := "90.5")) == ""
  {
    LatitudeTakesNinetyPointFive();
    LatitudeMessages(v.(latitude := "90.5"));
  }
}
