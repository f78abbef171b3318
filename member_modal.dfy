/** The member dialog (src/components/ViewMembers/MemberModal.tsx): the form
    schema, the URL-driven mode with its prefill, and the add-or-update
    submit. */
module MemberModal {
  import opened Common
  import opened Types
  import opened Routing

  /** The six text fields of `memberFormSchema`. */
  datatype MemberForm = MemberForm(fullName: string, address: string, email: string,
                                   nic: string, telephone: string, dob: string)

  const EmptyForm: MemberForm := MemberForm("", "", "", "", "", "")

  datatype FieldError = FieldError(field: string, message: string)

  function Required(value: string, field: string, message: string): seq<FieldError>
  {
    if value == "" then [FieldError(field, message)] else []
  }

  /** `memberFormSchema`'s errors in field order; the email rule is the
      library's, passed in as `isEmail`. */
  function MemberFormErrors(f: MemberForm, isEmail: string -> bool): (errs: seq<FieldError>)
    ensures errs == [] <==>
      f.fullName != "" && f.address != "" && isEmail(f.email) && f.nic != "" && f.telephone != "" && f.dob != ""
    ensures |errs| <= 6
    ensures !isEmail(f.email) ==> FieldError("email", "Invalid email address") in errs
  {
    Required(f.fullName, "fullName", "Full name is required")
    + Required(f.address, "address", "Address is required")
    + (if isEmail(f.email) then [] else [FieldError("email", "Invalid email address")])
    + Required(f.nic, "nic", "NIC is required")
    + Required(f.telephone, "telephone", "Phone number is required")
    + Required(f.dob, "dob", "Date of birth is required")
  }

  /** The `form.reset` of the edit branch: `??` falls back only on a missing
      value, and the full name falls back to "HII". */
  function ResetFrom(data: Option<Member>): (f: MemberForm)
    ensures data.None? ==> f == MemberForm("HII", "", "", "", "", "")
    ensures data.Some? ==>
      && f.fullName == data.value.fullName && f.address == data.value.address.GetOr("")
      && f.email == data.value.email.GetOr("") && f.nic == data.value.nic.GetOr("")
      && f.telephone == data.value.telephone.GetOr("") && f.dob == data.value.dob.GetOr("")
  {
    if data.None? then MemberForm("HII", "", "", "", "", "")
    else
      var m := data.value;
      MemberForm(m.fullName, m.address.GetOr(""), m.email.GetOr(""), m.nic.GetOr(""),
                 m.telephone.GetOr(""), m.dob.GetOr(""))
  }

  /** The form built before the member has loaded never passes the schema:
      its address is empty. */
  lemma UnloadedResetIsInvalid(isEmail: string -> bool)
    ensures MemberFormErrors(ResetFrom(None), isEmail) != []
  {
  }

  /** The member's fields, and the update that carries the id. */
  datatype MemberRequest = AddMember(fields: MemberForm) | UpdateMember(id: string, fields: MemberForm)

  /** The dialog's state: `memberId` and the form's values. */
  class MemberDialog {
    var memberId: Option<string>
    var form: MemberForm

    constructor ()
      ensures memberId == None && form == EmptyForm
    {
      memberId, form := None, EmptyForm;
    }

    /** `memberId && memberId !== null`. */
    predicate HasMemberId()
      reads this
    {
      memberId.Some? && memberId.value != ""
    }

    /** The dialog's title and description: both name an edit exactly when a
        member id is set. */
    function Heading(): (h: (string, string))
      reads this
      ensures h.0 == "Edit Member" <==> HasMemberId()
      ensures h.1 == "Edit Member" <==> HasMemberId()
      ensures h.0 != h.1 <==> !HasMemberId()
    {
      if HasMemberId() then ("Edit Member", "Edit Member") else ("Add Member", "Add a new member")
    }

    /** The effect on `memberData`: add-member asks to open without touching
        the id; edit-member with an id sets it, asks to open and refills the
        form from whatever member has loaded so far. */
    method SyncFromUrl(ps: Params, data: Option<Member>) returns (requestsOpen: bool)
      modifies this
      ensures var modal, id := Get(ps, "modal"), Get(ps, "id");
        if modal == Some("add-member") then
          requestsOpen && memberId == old(memberId) && form == old(form)
        else if modal == Some("edit-member") && id.Some? && id.value != "" then
          requestsOpen && memberId == id && form == ResetFrom(data)
        else
          !requestsOpen && memberId == old(memberId) && form == old(form)
    {
      var modal, id := Get(ps, "modal"), Get(ps, "id");
      requestsOpen := false;
      if modal == Some("add-member") {
        requestsOpen := true;
      } else if modal == Some("edit-member") && id.Some? && id.value != "" {
        memberId := id;
        requestsOpen := true;
        form := ResetFrom(data);
      }
    }

    /** `form.handleSubmit(onSubmit)`: an invalid form sends nothing; a valid
        one goes out as an update carrying the id, or as an add; only a
        resolved mutation is followed by the request to close. */
    method Submit(isEmail: string -> bool, outcome: Outcome) returns (request: Option<MemberRequest>, requestsClose: bool)
      ensures MemberFormErrors(form, isEmail) != [] ==> request == None && !requestsClose
      ensures MemberFormErrors(form, isEmail) == [] ==>
        && request.Some?
        && request.value.fields == form
        && (request.value.UpdateMember? <==> HasMemberId())
        && (request.value.UpdateMember? ==> request.value.id == memberId.value)
        && (requestsClose <==> outcome == Success)
    {
      if MemberFormErrors(form, isEmail) != [] {
        return None, false;
      }
      if HasMemberId() {
        request := Some(UpdateMember(memberId.value, form));
      } else {
        request := Some(AddMember(form));
      }
      requestsClose := outcome == Success;
    }
  }
}
