/** The portal's fixed endpoints, success suffixes and the shape of a submitted form. */
module Portal {
  import opened Wrappers

  const AdtDomain: string := "https://mobile.adtpulse.com"
  const SignInUrl: string := "/mobile/access/signin.jsp?e=ns&partner=adt"
  const SignOutUrl: string := "/mobile/access/signout.jsp"
  const SummaryUrl: string := "/mobile/summary/summary.jsp"
  const ListArmUrl: string := "/mobile/quickcontrol/panel.jsp"
  const SetArmUrl: string := "/mobile/quickcontrol/serv/ChangeVariableServ"
  const ListModeUrl: string := "/mobile/quickcontrol/mode.jsp"
  const SetModeUrl: string := "/mobile/quickcontrol/serv/ChangeShiftServ"
  const LogUrl: string := "/mobile/alarms/alarms.jsp"
  const ListArmSuffix: string := "/panel.jsp"
  const ListModeSuffix: string := "/mode.jsp"
  const SetArmSuccessSuffix: string := "/controldone.jsp"
  const SetModeSuccessSuffix: string := "/summary.jsp"

  /** One form field; the value is None where the C# code passes a null string. */
  datatype Field = Field(name: string, value: Option<string>)

  /** Form fields in the enumeration order of the dictionary they are built from. */
  type Form = seq<Field>

  function Names(form: Form): seq<string> {
    seq(|form|, i requires 0 <= i < |form| => form[i].name)
  }
}
