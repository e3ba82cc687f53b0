/** The plain-text Slack replies: a message framed by check marks on
    success or by crosses on error, and the user-registration replies built
    from them. */
module SlackMessages {
  import opened Wrappers
  import opened Strings

  const SuccessPrefix := ":white_check_mark: "
  const SuccessSuffix := " :white_check_mark:"
  const ErrorPrefix := ":x: "
  const ErrorSuffix := " :x:"

  /** `build_sucess_message(message)`: the message recovered by stripping
      the check marks. */
  function BuildSucessMessage(message: string): (r: string)
    ensures StripAffixes(r, SuccessPrefix, SuccessSuffix) == Some(message)
  {
    StripWrapped(SuccessPrefix, message, SuccessSuffix);
    SuccessPrefix + message + SuccessSuffix
  }

  /** `build_error_message(message)`: the message recovered by stripping
      the crosses. */
  function BuildErrorMessage(message: string): (r: string)
    ensures StripAffixes(r, ErrorPrefix, ErrorSuffix) == Some(message)
  {
    StripWrapped(ErrorPrefix, message, ErrorSuffix);
    ErrorPrefix + message + ErrorSuffix
  }

  /** Different messages give different replies. */
  lemma SucessMessageInjective(a: string, b: string)
    ensures BuildSucessMessage(a) == BuildSucessMessage(b) <==> a == b
  {
  }

  lemma ErrorMessageInjective(a: string, b: string)
    ensures BuildErrorMessage(a) == BuildErrorMessage(b) <==> a == b
  {
  }

  /** A success reply never reads as an error reply. */
  lemma SuccessIsNotError(a: string, b: string)
    ensures BuildSucessMessage(a) != BuildErrorMessage(b)
    ensures |BuildSucessMessage(a)| > 1 && BuildSucessMessage(a)[1] == 'w'
    ensures |BuildErrorMessage(b)| > 1 && BuildErrorMessage(b)[1] == 'x'
  {
    assert BuildSucessMessage(a)[1] == 'w';
    assert BuildErrorMessage(b)[1] == 'x';
  }

  const AddUserSuccess := BuildSucessMessage("The user has been created successfully")
  const UserAlreadyRegistered := BuildErrorMessage("Your user is already registered!")
  const AddUserError := BuildErrorMessage("Could not create the user. Please contact with the app administrator")

  /** The three registration replies frame their texts and are pairwise
      different. */
  lemma RegistrationReplies()
    ensures StripAffixes(AddUserSuccess, SuccessPrefix, SuccessSuffix) == Some("The user has been created successfully")
    ensures StripAffixes(UserAlreadyRegistered, ErrorPrefix, ErrorSuffix) == Some("Your user is already registered!")
    ensures StripAffixes(AddUserError, ErrorPrefix, ErrorSuffix)
         == Some("Could not create the user. Please contact with the app administrator")
    ensures AddUserSuccess != UserAlreadyRegistered && AddUserSuccess != AddUserError && UserAlreadyRegistered != AddUserError
  {
    var registered := "Your user is already registered!";
    var failed := "Could not create the user. Please contact with the app administrator";
    SuccessIsNotError("The user has been created successfully", registered);
    SuccessIsNotError("The user has been created successfully", failed);
  }
}
