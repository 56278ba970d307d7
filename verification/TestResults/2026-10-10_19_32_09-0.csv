TestResult.DisplayName,TestResult.Outcome,TestResult.Duration,TestResult.ResourceCount,RandomSeed
Patterns.BuildingCaptureAt (well-formedness),Failed,00:00:01.4559690,2075465,0
