TestResult.DisplayName,TestResult.Outcome,TestResult.Duration,TestResult.ResourceCount,RandomSeed
Schemas.EveryMovieReported (correctness),Passed,00:00:00.7019853,301169,3
Schemas.EveryMovieReported (well-formedness),Passed,00:00:00.5058345,88040,3
