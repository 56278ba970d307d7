TestResult.DisplayName,TestResult.Outcome,TestResult.Duration,TestResult.ResourceCount,RandomSeed
Patterns.BuildingCaptureAt (well-formedness),Failed,00:00:01.1968127,2075501,2
