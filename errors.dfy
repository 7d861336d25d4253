/** The exceptions the bot's pipeline raises, one constructor per raising site. */
module Errors {
  import opened Json

  datatype Error =
    | FetchFailed                   // get_api_answer raised; why is not part of this model
    | ResponseNotADict              // raise of logging.error's None: a TypeError
    | HomeworksMissing              // KeyError on response['homeworks']
    | HomeworksNotAList             // TypeError(' - homework not list')
    | HomeworkNotADict              // AttributeError: the entry has no .get
    | UnhashableStatus              // TypeError from `in HOMEWORK_STATUSES.keys()`
    | UnknownStatus(status: Value)  // KeyError from HOMEWORK_STATUSES[status]; logging.error intact
    | BadCurrentDate                // raise of logging.error's None: a TypeError
    | TokensMissing                 // raise of logging.error's None in main: a TypeError

  datatype Result<+T> = Ok(value: T) | Err(error: Error)
}
