/**
  The two record types of est.py: an email scenario of the configuration and
  the test result that is appended, one JSON object per line, to the test
  log.
 */
module Records {

  /** `EmailScenario` (est.py:49-59). */
  datatype EmailScenario = EmailScenario(
    name: string,
    category: string,
    fromEmail: string,
    fromName: string,
    subject: string,
    body: string,
    description: string,
    severity: string)

  /** `TestResult` (est.py:61-70) as `_log_test_result` writes it to the log,
      without its free-form `details` dictionary. */
  datatype TestResult = TestResult(
    timestamp: string,
    testType: string,
    scenario: string,
    target: string,
    fromEmail: string,
    success: bool)

  /** Whether a logged test succeeded. */
  function Succeeded(e: TestResult): bool { e.success }
}
