/**
 * The validators and argument guards of the four services. TaskService, CategoryService and
 * BoardService each carry their own private copy of validateName and validateDescription; the
 * copies are identical, so each rule is defined once here.
 * A check either passes or names the exception the Java code throws.
 */
module Checks {
  import opened Wrappers
  import opened Text
  import opened Entities
  import opened Store

  /**
   * validateName: `name == null || name.trim().isEmpty()` throws.
   * The rule is the same in TaskService, CategoryService and BoardService.
   */
  function CheckName(name: Option<string>): (r: Outcome<Failure>)
    ensures r.Pass? <==> name.Some? && !AllSpace(name.value)
    ensures r.Fail? ==> r.error == Invalid(Name)
  {
    if name.None? then Fail(Invalid(Name))
    else
      if IsBlank(name.value) then Fail(Invalid(Name)) else Pass
  }

  /**
   * validateDescription: the guard is `description == null && description.trim().isEmpty()`.
   * A null description reaches the second operand and throws a NullPointerException; any
   * non-null description, blank or not, makes the guard false and passes.
   */
  function CheckDescription(description: Option<string>): (r: Outcome<Failure>)
    ensures r.Pass? <==> description.Some?
    ensures r.Fail? ==> r.error == NullDereference
  {
    // the second operand of `&&` runs only for null, and dereferences it
    if description.None? then Fail(NullDereference) else Pass
  }

  /** validateDueDate: a present due date strictly before now throws. */
  function CheckDueDate(dueDate: Option<int>, now: int): (r: Outcome<Failure>)
    ensures r.Pass? <==> dueDate.None? || dueDate.value >= now
    ensures r.Fail? ==> r.error == Invalid(DueDate)
  {
    if dueDate.Some? && dueDate.value < now then Fail(Invalid(DueDate)) else Pass
  }

  /** validateStatus: a null status throws. */
  function CheckStatus(status: Option<TaskStatus>): (r: Outcome<Failure>)
    ensures r.Pass? <==> status.Some?
    ensures r.Fail? ==> r.error == Invalid(Status)
  {
    if status.None? then Fail(Invalid(Status)) else Pass
  }

  /** validatePriority: a null priority throws. */
  function CheckPriority(priority: Option<TaskPriority>): (r: Outcome<Failure>)
    ensures r.Pass? <==> priority.Some?
    ensures r.Fail? ==> r.error == Invalid(Priority)
  {
    if priority.None? then Fail(Invalid(Priority)) else Pass
  }

  /**
   * validateUsername: null or blank throws, then an (untrimmed) length below 3 throws.
   */
  function CheckUsername(username: Option<string>): (r: Outcome<Failure>)
    ensures r.Pass? <==> username.Some? && !AllSpace(username.value) && |username.value| >= 3
    ensures r.Fail? ==> r.error == Invalid(Username)
  {
    if username.None? then Fail(Invalid(Username))
    else
      if IsBlank(username.value) then Fail(Invalid(Username))
      else if |username.value| < 3 then Fail(Invalid(Username))
      else Pass
  }

  /**
   * validateEmail: null or blank throws, then an email lacking '@' or '.' throws.
   * Holding '@' already makes a string non-blank, so the blank test never decides anything.
   */
  function CheckEmail(email: Option<string>): (r: Outcome<Failure>)
    ensures r.Pass? <==> email.Some? && '@' in email.value && '.' in email.value
    ensures r.Fail? ==> r.error == Invalid(Email)
  {
    if email.None? || IsBlank(email.value) then Fail(Invalid(Email))
    else if '@' !in email.value || '.' !in email.value then Fail(Invalid(Email))
    else
      NotBlankWhenHolding(email.value, '@');
      Pass
  }

  /**
   * The guard on a Long threshold (`minCategories < 0`, `minTasks < 0`, `minBoards < 0`):
   * unboxing a null Long throws a NullPointerException, a negative value throws.
   */
  function CheckThreshold(threshold: Option<int>): (r: Outcome<Failure>)
    ensures r.Pass? <==> threshold.Some? && threshold.value >= 0
    ensures r.Fail? ==> (r.error == NullDereference <==> threshold.None?)
    ensures r.Fail? ==> (r.error == Invalid(Threshold) <==> threshold.Some?)
  {
    if threshold.None? then Fail(NullDereference)
    else if threshold.value < 0 then Fail(Invalid(Threshold))
    else Pass
  }

  /** The guard on a date argument: null throws. */
  function CheckDate(date: Option<int>): (r: Outcome<Failure>)
    ensures r.Pass? <==> date.Some?
    ensures r.Fail? ==> r.error == Invalid(Date)
  {
    if date.None? then Fail(Invalid(Date)) else Pass
  }

  /** getTasksCreatedBetween: either date null throws; their order is not checked. */
  function CheckDateRange(start: Option<int>, end: Option<int>): (r: Outcome<Failure>)
    ensures r.Pass? <==> start.Some? && end.Some?
    ensures r.Fail? ==> r.error == Invalid(Date)
  {
    if start.None? || end.None? then Fail(Invalid(Date)) else Pass
  }

  /** getUsersByUsernameContains: a null or blank keyword throws. */
  function CheckKeyword(keyword: Option<string>): (r: Outcome<Failure>)
    ensures r.Pass? <==> keyword.Some? && !AllSpace(keyword.value)
    ensures r.Fail? ==> r.error == Invalid(Keyword)
  {
    if keyword.None? then Fail(Invalid(Keyword))
    else
      if IsBlank(keyword.value) then Fail(Invalid(Keyword)) else Pass
  }

  /**
   * getUsersByEmailDomain: a null or blank domain, or one not starting with '@', throws.
   * A domain that starts with '@' is never blank, so the rule is "starts with '@'".
   */
  function CheckDomain(domain: Option<string>): (r: Outcome<Failure>)
    ensures r.Pass? <==> domain.Some? && |domain.value| > 0 && domain.value[0] == '@'
    ensures r.Fail? ==> r.error == Invalid(Domain)
  {
    if domain.None? || IsBlank(domain.value) then Fail(Invalid(Domain))
    else if |domain.value| == 0 || domain.value[0] != '@' then Fail(Invalid(Domain))
    else
      NotBlankWhenHolding(domain.value, '@');
      Pass
  }

  /** A findById that throws when the row is missing, seen as a check. */
  function Found<R>(r: Result<R, Failure>): (o: Outcome<Failure>)
    ensures o.Pass? <==> r.Success?
    ensures o.Fail? ==> o.error == r.error
  {
    if r.Failure? then Fail(r.error) else Pass
  }
}
