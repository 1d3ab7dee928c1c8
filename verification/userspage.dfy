/**
 * The user administration page: the directory list and, for administrators and
 * the CEO, the form that registers a new account.
 */
module UsersPageModel {
  import opened Common
  import opened Text
  import opened Repository
  import UsersApi
  import Session

  const LOAD_ERROR: string := "Не удалось загрузить список пользователей. Проверьте токен и работу backend."
  const REQUIRED_ERROR: string := "Укажите логин и пароль."
  const CREATE_FAILED_ERROR: string := "Не удалось создать пользователя"

  /** The registration form; the role select starts at "employee". */
  datatype UserForm = UserForm(username: string, password: string, role: string)

  const EMPTY_FORM: UserForm := UserForm("", "", "employee")

  /** `["admin", "ceo"].includes(user?.role)`. */
  predicate CanCreate(user: Option<Session.Identity>) {
    user.Some? && user.value.role.Some? && user.value.role.value in ["admin", "ceo"]
  }

  /** The page offers registration to exactly the roles the directory shows passwords to. */
  lemma CreateGateMatchesPasswordGate(user: Option<Session.Identity>)
    ensures CanCreate(user) <==> user.Some? && user.value.role.Some? && UsersApi.SeesPasswords(user.value.role.value)
  {
  }

  /** The required-fields check of `handleCreate`: both credentials are non-blank once trimmed. */
  predicate FormFilled(form: UserForm) {
    !IsBlank(form.username) && !IsBlank(form.password)
  }

  /** The registration `handleCreate` sends for a filled form: trimmed credentials and the chosen role. */
  function Registration(form: UserForm): (r: Call)
    requires FormFilled(form)
    ensures r.RegisterUser? && r.role == form.role
    ensures r.username == Trim(form.username) && r.password == Trim(form.password)
    ensures r.username != [] && r.password != []
  {
    RegisterUser(Trim(form.username), Trim(form.password), form.role)
  }

  const NOTICE_PREFIX: string := "Пользователь "

  /** The success notice naming the new account. */
  function CreatedNotice(username: string): (r: string)
    ensures |r| > |NOTICE_PREFIX| + |username|
    ensures r[|NOTICE_PREFIX|..|NOTICE_PREFIX| + |username|] == username
  {
    NOTICE_PREFIX + username + " создан."
  }

  /** The page's state and its request log. */
  class UsersPage {
    const user: Option<Session.Identity>
    var items: UserList
    var loading: bool
    var error: string
    var creating: bool
    var createError: string
    var createOk: string
    var form: UserForm
    var calls: seq<Call>

    /** The first render. */
    constructor (user: Option<Session.Identity>)
      ensures this.user == user
      ensures items == [] && loading && error == "" && !creating
      ensures createError == "" && createOk == "" && form == EMPTY_FORM && calls == []
    {
      this.user := user;
      items, loading, error, creating := [], true, "", false;
      createError, createOk, form, calls := "", "", EMPTY_FORM, [];
    }

    /** `load`: replaces the list on success; on failure keeps it and shows the load error; `loading` ends false. */
    method Load(result: Fetch<UserList>)
      modifies this
      ensures calls == old(calls) + [GetUsers]
      ensures !loading
      ensures result.Fetched? ==> items == result.value && error == ""
      ensures result.Failed? ==> items == old(items) && error == LOAD_ERROR
      ensures creating == old(creating) && createError == old(createError)
      ensures createOk == old(createOk) && form == old(form)
    {
      error := "";
      loading := true;
      calls := calls + [GetUsers];
      if result.Fetched? {
        items := result.value;
      } else {
        error := LOAD_ERROR;
      }
      loading := false;
    }

    /**
     * The request part of `handleCreate` for non-blank credentials: one
     * registration; success shows the notice, resets the form and reloads the
     * list; failure shows the backend detail or the generic message. `creating`
     * is false afterwards.
     */
    method SubmitRegistration(username: string, password: string, role: string,
                              registered: Fetch<int>, reloaded: Fetch<UserList>)
      modifies this
      ensures !creating
      ensures calls == old(calls) + [RegisterUser(username, password, role)]
                                  + (if registered.Fetched? then [GetUsers] else [])
      ensures registered.Fetched? ==>
                && createOk == CreatedNotice(username) && createError == "" && form == EMPTY_FORM
                && items == (if reloaded.Fetched? then reloaded.value else old(items))
                && error == (if reloaded.Fetched? then "" else LOAD_ERROR) && !loading
      ensures registered.Failed? ==>
                && createOk == "" && createError == ErrorText(registered.detail, CREATE_FAILED_ERROR)
                && form == old(form) && items == old(items) && error == old(error) && loading == old(loading)
    {
      creating := true;
      createError := "";
      createOk := "";
      calls := calls + [RegisterUser(username, password, role)];
      if registered.Fetched? {
        createOk := CreatedNotice(username);
        form := EMPTY_FORM;
        Load(reloaded);
      } else {
        createError := ErrorText(registered.detail, CREATE_FAILED_ERROR);
      }
      creating := false;
    }

    /**
     * The part of `handleCreate` after the role gate: a blank username or
     * password shows the required-fields error, clears the notice and sends
     * nothing; otherwise the registration is submitted.
     */
    method SubmitForm(entered: UserForm, registered: Fetch<int>, reloaded: Fetch<UserList>)
      modifies this
      ensures !FormFilled(entered) ==>
                && calls == old(calls) && form == old(form) && items == old(items)
                && createError == REQUIRED_ERROR && createOk == "" && creating == old(creating)
                && error == old(error) && loading == old(loading)
      ensures FormFilled(entered) ==>
                && !creating
                && calls == old(calls) + [Registration(entered)] + (if registered.Fetched? then [GetUsers] else [])
                && (registered.Fetched? ==>
                      && createOk == CreatedNotice(Registration(entered).username) && createError == ""
                      && form == EMPTY_FORM
                      && items == (if reloaded.Fetched? then reloaded.value else old(items))
                      && error == (if reloaded.Fetched? then "" else LOAD_ERROR) && !loading)
                && (registered.Failed? ==>
                      && createOk == "" && createError == ErrorText(registered.detail, CREATE_FAILED_ERROR)
                      && form == old(form) && items == old(items) && error == old(error) && loading == old(loading))
    {
      if !FormFilled(entered) {
        createError := REQUIRED_ERROR;
        createOk := "";
        return;
      }
      var request := Registration(entered);
      SubmitRegistration(request.username, request.password, request.role, registered, reloaded);
    }

    /** `handleCreate`: nothing for roles other than admin and ceo; otherwise the form is submitted. */
    method HandleCreate(registered: Fetch<int>, reloaded: Fetch<UserList>)
      modifies this
      ensures !CanCreate(user) ==>
                && calls == old(calls) && form == old(form) && items == old(items)
                && createError == old(createError) && createOk == old(createOk) && creating == old(creating)
                && error == old(error) && loading == old(loading)
      ensures (CanCreate(user) && !FormFilled(old(form))) ==>
                && calls == old(calls) && form == old(form) && items == old(items)
                && createError == REQUIRED_ERROR && createOk == "" && creating == old(creating)
                && error == old(error) && loading == old(loading)
      ensures (CanCreate(user) && FormFilled(old(form))) ==>
                && !creating
                && calls == old(calls) + [Registration(old(form))] + (if registered.Fetched? then [GetUsers] else [])
                && (registered.Fetched? ==>
                      && createOk == CreatedNotice(Registration(old(form)).username) && createError == ""
                      && form == EMPTY_FORM
                      && items == (if reloaded.Fetched? then reloaded.value else old(items))
                      && error == (if reloaded.Fetched? then "" else LOAD_ERROR) && !loading)
                && (registered.Failed? ==>
                      && createOk == "" && createError == ErrorText(registered.detail, CREATE_FAILED_ERROR)
                      && form == old(form) && items == old(items) && error == old(error) && loading == old(loading))
    {
      if !CanCreate(user) {
        return;
      }
      SubmitForm(form, registered, reloaded);
    }
  }
}
