/** The server's error responses: the HTTP status and the fixed message of each. */
module Responses {

  datatype Failure =
    | NotReady        // data not loaded yet
    | BadPopulation   // `population` not a non-negative number
    | BadAreaFrom     // `areaFrom` not a non-negative number
    | BadAreaTo       // `areaTo` not a non-negative number
    | BadCode         // code length outside 2..3
    | NotFound        // no record has the code
    | InternalError   // an exception while filtering
  {
    function Status(): int {
      match this
      case NotReady => 503
      case BadPopulation | BadAreaFrom | BadAreaTo | BadCode => 400
      case NotFound => 404
      case InternalError => 500
    }

    function Message(): string {
      match this
      case NotReady => "Сервис временно недоступен. Загрузка данных..."
      case BadPopulation => "Некорректное значение населения"
      case BadAreaFrom => "Некорректное значение минимальной площади"
      case BadAreaTo => "Некорректное значение максимальной площади"
      case BadCode => "Некорректный код страны"
      case NotFound => "Страна не найдена"
      case InternalError => "Внутренняя ошибка сервера"
    }
  }

  /** A response: a body with status 200, or an error. */
  datatype Response<+T> = Ok(body: T) | Fail(failure: Failure)
}
